/** A peer's local, never regressing view of one conversation's op chain. */
module Log {
  import opened Common
  import opened ByteStrings
  import opened Ops
  import opened Hashing
  import opened Chain

  /** The out-of-band invite: a trusted lower bound for a joiner. */
  datatype Pin = Pin(conversationId: Str, genesisHash: string, pinnedHead: Head)

  datatype LogState = LogState(conversationId: Str, pin: Option<Pin>, ops: seq<Op>, watermark: Option<Head>)

  function Fresh(conversationId: Str, pin: Option<Pin>): LogState
  {
    LogState(conversationId, pin, [], if pin.Some? then Some(pin.value.pinnedHead) else None)
  }

  predicate PinOk(p: Platform, pin: Pin, ops: seq<Op>)
  {
    ops != [] && HeadHash(p, ops[0]) == Some(pin.genesisHash) && Holds(p, ops, pin.pinnedHead)
  }

  /** A populated log holds a verified, pin-respecting chain whose head is the watermark. */
  predicate ValidLog(p: Platform, s: LogState)
  {
    if s.ops == [] then s == Fresh(s.conversationId, s.pin)
    else
      && Verified(p, s.ops)
      && s.ops[0].body.conversationId == s.conversationId
      && (s.pin.Some? ==> PinOk(p, s.pin.value, s.ops))
      && s.watermark.Some? && s.watermark == HeadOf(p, s.ops)
  }

  /** What a candidate needs: verified, of this conversation, above the pin and holding the watermark. */
  predicate Admits(p: Platform, s: LogState, candidate: seq<Op>)
  {
    && Verified(p, candidate)
    && candidate[0].body.conversationId == s.conversationId
    && (s.pin.Some? ==> PinOk(p, s.pin.value, candidate))
    && HeadOf(p, candidate).Some?
    && (s.watermark.Some? ==> Holds(p, candidate, s.watermark.value))
  }

  /** An admitted candidate replaces the chain and its head becomes the watermark; any other changes nothing. */
  function Ingest(p: Platform, s: LogState, candidate: seq<Op>): LogState
  {
    if Admits(p, s, candidate) then s.(ops := candidate, watermark := HeadOf(p, candidate)) else s
  }

  /** The head of a held chain is the position and hash of its last op. */
  lemma HeadOfPosition(p: Platform, ops: seq<Op>)
    requires Verified(p, ops) && HeadOf(p, ops).Some?
    ensures HeadOf(p, ops).value.seqNo == |ops| - 1
    ensures Holds(p, ops, HeadOf(p, ops).value)
  {
    assert OpOk(p, ops, |ops| - 1);
  }

  lemma HeldAtHead(p: Platform, ops: seq<Op>, h: Head)
    requires Verified(p, ops) && HeadOf(p, ops).Some? && Holds(p, ops, h)
    ensures h.seqNo <= HeadOf(p, ops).value.seqNo
    ensures h.seqNo == HeadOf(p, ops).value.seqNo ==> h == HeadOf(p, ops).value
  {
    HeadOfPosition(p, ops);
  }

  lemma IngestKeepsValid(p: Platform, s: LogState, candidate: seq<Op>)
    requires ValidLog(p, s)
    ensures ValidLog(p, Ingest(p, s, candidate))
  {
  }

  /** No rewind and no fork: an adopted chain extends the held one, or the two exhibit a collision. */
  lemma IngestExtends(p: Platform, s: LogState, candidate: seq<Op>)
    requires ValidLog(p, s)
    ensures IsPrefix(s.ops, Ingest(p, s, candidate).ops) || Clash(p, s.ops, candidate)
  {
    if s.ops != [] && Admits(p, s, candidate) {
      HeldHeadAgrees(p, s.ops, candidate);
    }
  }

  lemma AdmittedMeans(p: Platform, s: LogState, candidate: seq<Op>)
    ensures Admits(p, s, candidate) && s.pin.Some? ==>
              HeadHash(p, candidate[0]) == Some(s.pin.value.genesisHash) && Holds(p, candidate, s.pin.value.pinnedHead)
  {
    hide OpOk, HeadHash, Holds, HeadOf;
  }

  /** The chain is verified, its head can be named, and the conversation and the pin are respected. */
  predicate Acceptable(p: Platform, conversationId: Str, pin: Option<Pin>, chain: seq<Op>)
  {
    && Verified(p, chain) && HeadOf(p, chain).Some?
    && chain[0].body.conversationId == conversationId
    && (pin.Some? ==> PinOk(p, pin.value, chain))
  }

  /** A valid log adopts every acceptable chain that extends its own, by any number of ops. */
  lemma ExtensionAdmitted(p: Platform, s: LogState, chain: seq<Op>)
    requires ValidLog(p, s) && IsPrefix(s.ops, chain) && Acceptable(p, s.conversationId, s.pin, chain)
    ensures Admits(p, s, chain) && Ingest(p, s, chain).ops == chain
  {
    hide OpOk, HeadHash;
    if s.ops != [] {
      HeadOfPosition(p, s.ops);
      assert s.ops[|s.ops| - 1] == chain[|s.ops| - 1];
    }
  }

  /** For a populated log conversation and pin come for free: the chain begins as the held one does. */
  lemma ExtensionAcceptable(p: Platform, s: LogState, chain: seq<Op>)
    requires ValidLog(p, s) && s.ops != [] && IsPrefix(s.ops, chain)
    requires Verified(p, chain) && HeadOf(p, chain).Some?
    ensures Acceptable(p, s.conversationId, s.pin, chain)
  {
    hide OpOk, HeadHash;
    assert s.ops[0] == chain[0];
    if s.pin.Some? {
      assert s.ops[s.pin.value.pinnedHead.seqNo] == chain[s.pin.value.pinnedHead.seqNo];
    }
  }

  /** A shorter chain, and one that differs from the held chain at its head, is refused. */
  lemma RewindRefused(p: Platform, s: LogState, chain: seq<Op>)
    requires ValidLog(p, s) && s.ops != []
    requires |chain| < |s.ops| || HeadHash(p, chain[|s.ops| - 1]) != HeadHash(p, s.ops[|s.ops| - 1])
    ensures !Admits(p, s, chain) && Ingest(p, s, chain) == s
  {
    hide OpOk, HeadHash;
    HeadOfPosition(p, s.ops);
  }

  class MembershipLog {
    const p: Platform
    const conversationId: Str
    const pin: Option<Pin>
    var ops: seq<Op>
    var watermark: Option<Head>

    ghost function State(): LogState
      reads this
    {
      LogState(conversationId, pin, ops, watermark)
    }

    ghost predicate Valid()
      reads this
    {
      ValidLog(p, State())
    }

    constructor (p: Platform, conversationId: Str, pin: Option<Pin>)
      ensures Valid() && this.p == p && State() == Fresh(conversationId, pin)
      ensures ops == [] && watermark == match pin case None => None case Some(invite) => Some(invite.pinnedHead)
    {
      this.p := p;
      this.conversationId := conversationId;
      this.pin := pin;
      ops := [];
      watermark := if pin.Some? then Some(pin.value.pinnedHead) else None;
    }

    /** `MembershipLog.open`; null is the throw. */
    static method Open(p: Platform, chain: seq<Op>) returns (log: MembershipLog?)
      ensures chain == [] ==> log == null
      ensures chain != [] ==>
                var s := Fresh(chain[0].body.conversationId, None);
                if Admits(p, s, chain) then log != null && fresh(log) && log.p == p && log.Valid() && log.State() == Ingest(p, s, chain)
                else log == null
    {
      if chain == [] {
        return null;
      }
      log := new MembershipLog(p, chain[0].body.conversationId, None);
      var r := log.IngestChain(chain);
      if r.Fail? {
        return null;
      }
    }

    /** Whether the candidate matches the pin, when there is one. */
    method CheckPin(candidate: seq<Op>) returns (ok: bool)
      requires candidate != []
      ensures ok <==> (pin.Some? ==> PinOk(p, pin.value, candidate))
    {
      if pin.None? {
        return true;
      }
      if HeadHash(p, candidate[0]) != Some(pin.value.genesisHash) {
        return false;
      }
      var pinned := At(candidate, pin.value.pinnedHead.seqNo);
      return pinned.Some? && HeadHash(p, pinned.value) == Some(pin.value.pinnedHead.headHash);
    }

    /** Whether the candidate reaches the watermark and agrees with it there. */
    method CheckWatermark(candidate: seq<Op>, head: Head) returns (ok: bool)
      requires Verified(p, candidate) && HeadOf(p, candidate) == Some(head)
      ensures ok <==> (watermark.Some? ==> Holds(p, candidate, watermark.value))
    {
      if watermark.None? {
        return true;
      }
      HeadOfPosition(p, candidate);
      if head.seqNo < watermark.value.seqNo {
        return false;
      }
      var marked := At(candidate, watermark.value.seqNo);
      return marked.Some? && HeadHash(p, marked.value) == Some(watermark.value.headHash);
    }

    /**
     * `ingestChain`. The two comparisons at the end are the source's; that the contract needs
     * neither shows that the first is always true and the second only skips an equal head.
     */
    method IngestChain(candidate: seq<Op>) returns (r: Outcome)
      requires Valid()
      modifies this`ops, this`watermark
      ensures Valid()
      ensures r.Pass? <==> Admits(p, old(State()), candidate)
      ensures State() == Ingest(p, old(State()), candidate)
      ensures r.Pass? ==> ops == candidate && candidate != [] && watermark == HeadOf(p, candidate)
      ensures r.Fail? ==> ops == old(ops) && watermark == old(watermark)
      ensures candidate == [] || candidate[0].body.conversationId != conversationId ==> r.Fail?
      ensures pin.Some? && candidate != [] && HeadHash(p, candidate[0]) != Some(pin.value.genesisHash) ==> r.Fail?
      ensures pin.Some? && !Holds(p, candidate, pin.value.pinnedHead) ==> r.Fail?
      ensures old(watermark).Some? && !Holds(p, candidate, old(watermark).value) ==> r.Fail?
    {
      hide OpOk, HeadHash, PinOk, Holds, HeadOf, ValidLog;
      AdmittedMeans(p, State(), candidate);
      IngestKeepsValid(p, State(), candidate);
      var verified := VerifyChain(p, candidate);
      if !verified || candidate[0].body.conversationId != conversationId {
        return Fail;
      }
      var pinned := CheckPin(candidate);
      if !pinned {
        return Fail;
      }
      var maybeHead := HeadOf(p, candidate);
      if maybeHead.None? {
        return Fail;
      }
      var head := maybeHead.value;
      var reached := CheckWatermark(candidate, head);
      if !reached {
        return Fail;
      }
      AdoptionTests(p, State(), candidate);
      if head.seqNo >= (if |ops| > 0 then ops[|ops| - 1].body.seqNo else -1) {
        ops := candidate;
      }
      if watermark.None? || head.seqNo > watermark.value.seqNo {
        watermark := Some(head);
      }
      return Pass;
    }

    /** `head()`: `None` only on a log that was never populated nor pinned. */
    method CurrentHead() returns (h: Option<Head>)
      requires Valid()
      ensures h == watermark
    {
      if |ops| == 0 {
        return watermark;
      }
      return HeadOf(p, ops);
    }

    /** `members()`: `None` is the throw on an unpopulated log. */
    method Members() returns (m: Option<set<Str>>)
      ensures m == if ops == [] then None else Some(Fold(ops).members)
    {
      if |ops| == 0 {
        return None;
      }
      var room := FoldLoop(ops);
      return Some(room.members);
    }
  }

  /** The tests at the end of `ingestChain`, for an admitted candidate. */
  lemma AdoptionTests(p: Platform, s: LogState, candidate: seq<Op>)
    requires ValidLog(p, s) && Admits(p, s, candidate)
    ensures s.ops != [] ==> HeadOf(p, candidate).value.seqNo >= s.ops[|s.ops| - 1].body.seqNo
    ensures HeadOf(p, candidate).value.seqNo >= 0
    ensures s.watermark.Some? && HeadOf(p, candidate).value.seqNo <= s.watermark.value.seqNo ==>
              s.watermark == HeadOf(p, candidate)
  {
    HeadOfPosition(p, candidate);
    if s.watermark.Some? {
      HeldAtHead(p, candidate, s.watermark.value);
    }
    if s.ops != [] {
      HeadOfPosition(p, s.ops);
    }
  }
}
