/** A client's persisted op lists and the logs, rosters and verdicts derived from them. */
module ClientView {
  import opened Common
  import opened ByteStrings
  import opened Ops
  import opened Canonical
  import opened Decoding
  import opened Hashing
  import opened Chain
  import opened Log
  import opened Gate

  // ----- One conversation's persisted list -----

  function DecodeText(p: Platform, s: Str): Option<Op>
  {
    DecodeOp(p, p.fromBase64(s))
  }

  function DecodeAll(p: Platform, list: seq<Str>): Option<seq<Op>>
  {
    if list == [] then Some([])
    else
      var init :- DecodeAll(p, list[..|list| - 1]);
      var op :- DecodeText(p, list[|list| - 1]);
      Some(init + [op])
  }

  /** The empty log that a rebuild starts from. */
  function StartLog(pin: Option<Pin>, chain: seq<Op>): LogState
    requires chain != []
  {
    Fresh(if pin.Some? then pin.value.conversationId else chain[0].body.conversationId, pin)
  }

  /** `membershipLogFor`: the log over the whole list, if it decodes, verifies and respects the pin. */
  function Rebuild(p: Platform, pin: Option<Pin>, list: seq<Str>): Option<LogState>
  {
    var chain :- DecodeAll(p, list);
    if chain != [] && Admits(p, StartLog(pin, chain), chain) then Some(Ingest(p, StartLog(pin, chain), chain)) else None
  }

  /** `handleIncomingOp` on one list: dense append, rolled back when the longer list gives no log. */
  function Receive(p: Platform, pin: Option<Pin>, list: seq<Str>, seqNo: nat, op: Str): seq<Str>
  {
    if DecodeText(p, op).Some? && seqNo == |list| && Rebuild(p, pin, list + [op]).Some? then list + [op] else list
  }

  /** Empty, or a verified chain with a head. */
  predicate ListOk(p: Platform, list: seq<Str>)
  {
    var chain := DecodeAll(p, list);
    list == [] || (chain.Some? && chain.value != [] && Verified(p, chain.value) && HeadOf(p, chain.value).Some?)
  }

  lemma {:induction false} DecodeAllLength(p: Platform, list: seq<Str>)
    requires DecodeAll(p, list).Some?
    ensures |DecodeAll(p, list).value| == |list|
  {
    if list != [] {
      DecodeAllLength(p, list[..|list| - 1]);
    }
  }

  lemma DecodeAllSnoc(p: Platform, list: seq<Str>, op: Str)
    ensures DecodeAll(p, list + [op]) ==
            if DecodeAll(p, list).Some? && DecodeText(p, op).Some?
            then Some(DecodeAll(p, list).value + [DecodeText(p, op).value]) else None
  {
    hide DecodeText;
    assert (list + [op])[..|list|] == list;
  }

  lemma RebuildOk(p: Platform, pin: Option<Pin>, list: seq<Str>)
    requires Rebuild(p, pin, list).Some?
    ensures list != [] && ListOk(p, list) && ValidLog(p, Rebuild(p, pin, list).value)
    ensures Some(Rebuild(p, pin, list).value.ops) == DecodeAll(p, list)
  {
    hide DecodeText, OpOk, HeadHash;
    DecodeAllLength(p, list);
  }

  /** When a list gives a log and which: it decodes to a verified chain with a head, and matches the pin in all three parts. */
  lemma RebuildMeans(p: Platform, pin: Option<Pin>, list: seq<Str>)
    ensures Rebuild(p, pin, list).Some? <==>
            && DecodeAll(p, list).Some? && DecodeAll(p, list).value != []
            && var chain := DecodeAll(p, list).value;
               && Verified(p, chain) && HeadOf(p, chain).Some?
               && (pin.Some? ==>
                     && chain[0].body.conversationId == pin.value.conversationId
                     && HeadHash(p, chain[0]) == Some(pin.value.genesisHash)
                     && Holds(p, chain, pin.value.pinnedHead))
    ensures Rebuild(p, pin, list).Some? ==> Some(Rebuild(p, pin, list).value.ops) == DecodeAll(p, list)
  {
    hide DecodeText, OpOk, HeadHash, HeadOf, DecodeAll;
  }

  /** Whatever arrives, a list only grows and stays empty or verified. */
  lemma ReceiveKeepsList(p: Platform, pin: Option<Pin>, list: seq<Str>, seqNo: nat, op: Str)
    requires ListOk(p, list)
    ensures ListOk(p, Receive(p, pin, list, seqNo, op)) && IsPrefix(list, Receive(p, pin, list, seqNo, op))
  {
    hide DecodeText, Rebuild, ListOk;
    if Rebuild(p, pin, list + [op]).Some? {
      RebuildOk(p, pin, list + [op]);
    }
  }

  // ----- Rebuilding against keeping one log alive -----

  /** A log kept in memory and fed each longer chain; it starts where a rebuild starts. */
  function Feed(p: Platform, pin: Option<Pin>, kept: Option<LogState>, chain: seq<Op>): Option<LogState>
    requires chain != []
  {
    var s := if kept.Some? then kept.value else StartLog(pin, chain);
    if Admits(p, s, chain) then Some(Ingest(p, s, chain)) else kept
  }

  lemma AdmitsSameAsStart(p: Platform, pin: Option<Pin>, chain: seq<Op>, op: Op)
    requires chain != [] && Admits(p, StartLog(pin, chain), chain)
    ensures var s := Ingest(p, StartLog(pin, chain), chain);
            var next := chain + [op];
            && (Admits(p, s, next) <==> Admits(p, StartLog(pin, next), next))
            && (Admits(p, s, next) ==> Ingest(p, s, next) == Ingest(p, StartLog(pin, next), next))
  {
    hide OpOk, HeadHash;
    var next := chain + [op];
    HeadOfPosition(p, chain);
    assert next[|chain| - 1] == chain[|chain| - 1] && next[0] == chain[0];
  }

  /** The rebuilt log is the log that would have been kept alive, frame by frame, refusals included. */
  lemma RebuildIsLongLived(p: Platform, pin: Option<Pin>, list: seq<Str>, op: Str)
    requires list != [] ==> Rebuild(p, pin, list).Some?
    requires DecodeText(p, op).Some?
    ensures DecodeAll(p, list + [op]).Some? && DecodeAll(p, list + [op]).value != []
    ensures Rebuild(p, pin, Receive(p, pin, list, |list|, op)) ==
            Feed(p, pin, Rebuild(p, pin, list), DecodeAll(p, list + [op]).value)
  {
    hide DecodeText, Admits, Ingest;
    DecodeAllSnoc(p, list, op);
    if list != [] {
      AdmitsSameAsStart(p, pin, DecodeAll(p, list).value, DecodeText(p, op).value);
    }
  }

  // ----- Runs -----

  datatype Frame = Frame(seqNo: nat, op: Str)

  /** A frame and the pin that is in force when it arrives. */
  datatype Arrival = Arrival(pin: Option<Pin>, frame: Frame)

  function ReceiveAll(p: Platform, list: seq<Str>, arrivals: seq<Arrival>): seq<Str>
    decreases |arrivals|
  {
    if arrivals == [] then list
    else
      var a := arrivals[0];
      ReceiveAll(p, Receive(p, a.pin, list, a.frame.seqNo, a.frame.op), arrivals[1..])
  }

  /** Arbitrary frames in any number and order leave an append-only list that is empty or verified. */
  lemma {:induction false} ReceiveAllKeepsList(p: Platform, list: seq<Str>, arrivals: seq<Arrival>)
    requires ListOk(p, list)
    ensures ListOk(p, ReceiveAll(p, list, arrivals)) && IsPrefix(list, ReceiveAll(p, list, arrivals))
    decreases |arrivals|
  {
    hide Receive, ListOk;
    if arrivals != [] {
      var a := arrivals[0];
      var mid := Receive(p, a.pin, list, a.frame.seqNo, a.frame.op);
      ReceiveKeepsList(p, a.pin, list, a.frame.seqNo, a.frame.op);
      ReceiveAllKeepsList(p, mid, arrivals[1..]);
      PrefixTransitive(list, mid, ReceiveAll(p, mid, arrivals[1..]));
    }
  }

  /** The kept log after the same frames: each decodable next frame is offered as the longer chain. */
  function FeedAll(p: Platform, pin: Option<Pin>, list: seq<Str>, kept: Option<LogState>, arrivals: seq<Arrival>): Option<LogState>
    decreases |arrivals|
  {
    if arrivals == [] then kept
    else
      var f := arrivals[0].frame;
      var chain := DecodeAll(p, list + [f.op]);
      var fed := if f.seqNo == |list| && chain.Some? && chain.value != [] then Feed(p, pin, kept, chain.value) else kept;
      FeedAll(p, pin, Receive(p, pin, list, f.seqNo, f.op), fed, arrivals[1..])
  }

  /** Over every run under one pin, rebuilding from the list gives the log that was kept alive. */
  lemma {:induction false} RebuildMatchesKeptLog(p: Platform, pin: Option<Pin>, list: seq<Str>, arrivals: seq<Arrival>)
    requires forall a <- arrivals :: a.pin == pin
    requires list != [] ==> Rebuild(p, pin, list).Some?
    ensures Rebuild(p, pin, ReceiveAll(p, list, arrivals)) == FeedAll(p, pin, list, Rebuild(p, pin, list), arrivals)
    decreases |arrivals|
  {
    hide DecodeText, Rebuild, Feed, DecodeAll;
    if arrivals != [] {
      var f := arrivals[0].frame;
      assert arrivals[0] in arrivals && forall a <- arrivals[1..] :: a in arrivals;
      DecodeAllSnoc(p, list, f.op);
      if f.seqNo == |list| && DecodeText(p, f.op).Some? {
        RebuildIsLongLived(p, pin, list, f.op);
      }
      RebuildMatchesKeptLog(p, pin, Receive(p, pin, list, f.seqNo, f.op), arrivals[1..]);
    }
  }

  // ----- The author's own list -----

  function WireText(p: Platform, op: Op): Option<Str>
  {
    var b :- EncodeOp(op);
    Some(p.toBase64(b))
  }

  /** An op sent over the wire is the op received. */
  lemma WireRoundTrip(p: Platform, op: Op)
    requires RepairsText(p.utf8) && Base64Inverts(p) && Wireable(p, op)
    ensures WireText(p, op).Some? && DecodeText(p, WireText(p, op).value) == Some(op)
  {
    DecodeExact(p, OpBytes(op), op);
  }

  predicate AllWireable(p: Platform, ops: seq<Op>)
  {
    forall op <- ops :: Wireable(p, op)
  }

  /** The wire form of a chain. */
  function Texts(p: Platform, ops: seq<Op>): (texts: seq<Str>)
    ensures |texts| == |ops|
  {
    if ops == [] then []
    else
      var text := WireText(p, ops[|ops| - 1]);
      Texts(p, ops[..|ops| - 1]) + [if text.Some? then text.value else []]
  }

  lemma {:induction false} TextsPrefix(p: Platform, ops: seq<Op>, n: nat)
    requires n <= |ops|
    ensures Texts(p, ops)[..n] == Texts(p, ops[..n])
    decreases |ops|
  {
    hide WireText;
    if n < |ops| {
      TextsPrefix(p, ops[..|ops| - 1], n);
      assert ops[..|ops| - 1][..n] == ops[..n];
      assert Texts(p, ops)[..n] == Texts(p, ops[..|ops| - 1])[..n];
    } else {
      assert ops[..n] == ops;
    }
  }

  lemma {:induction false} TextsDecode(p: Platform, ops: seq<Op>)
    requires RepairsText(p.utf8) && Base64Inverts(p) && AllWireable(p, ops)
    ensures DecodeAll(p, Texts(p, ops)) == Some(ops)
  {
    hide DecodeText, WireText, Wireable, RepairsText;
    if ops != [] {
      var init, last := ops[..|ops| - 1], ops[|ops| - 1];
      TextsDecode(p, init);
      WireRoundTrip(p, last);
      DecodeAllSnoc(p, Texts(p, init), WireText(p, last).value);
      assert init + [last] == ops;
    }
  }

  /** `syncOwnMembershipChain`: the author's ops beyond the list's length, unverified. */
  function Synced(p: Platform, list: seq<Str>, chain: seq<Op>): seq<Str>
  {
    if |list| >= |chain| then list else list + Texts(p, chain[|list|..])
  }

  lemma {:induction false} TextsAppend(p: Platform, a: seq<Op>, b: seq<Op>)
    ensures Texts(p, a + b) == Texts(p, a) + Texts(p, b)
    decreases |b|
  {
    hide WireText;
    if b == [] {
      assert a + b == a;
    } else {
      TextsAppend(p, a, b[..|b| - 1]);
      assert (a + b)[..|a + b| - 1] == a + b[..|b| - 1];
    }
  }

  /** A list that lags behind the author's chain, empty as after the create or not, becomes its whole wire form. */
  lemma SyncCompletes(p: Platform, chain: seq<Op>, k: nat)
    requires k <= |chain|
    ensures Synced(p, Texts(p, chain[..k]), chain) == Texts(p, chain)
  {
    hide Texts;
    assert chain == chain[..k] + chain[k..];
    TextsAppend(p, chain[..k], chain[k..]);
    assert k == |chain| ==> chain[..k] == chain;
  }

  /** So the author's own list is verified, and gives a log of the whole chain. */
  lemma SyncedGivesLog(p: Platform, chain: seq<Op>, k: nat)
    requires RepairsText(p.utf8) && Base64Inverts(p) && AllWireable(p, chain)
    requires k <= |chain| && Verified(p, chain) && HeadOf(p, chain).Some?
    ensures var log := Rebuild(p, None, Synced(p, Texts(p, chain[..k]), chain));
            log.Some? && log.value.ops == chain
  {
    hide Texts, Wireable, RepairsText, OpOk, HeadOf;
    SyncCompletes(p, chain, k);
    TextsDecode(p, chain);
  }

  lemma SameLinkSameHash(p: Platform, a: Op, b: Op, next: Op)
    requires HashOp(p, a) == Some(next.body.prevHash) && HashOp(p, b) == Some(next.body.prevHash)
    ensures HeadHash(p, a).Some? && HeadHash(p, a) == HeadHash(p, b)
  {
    hide HashPreimage;
  }

  /** Joining the rest of one chain to another verifies exactly when the other is its beginning, or they clash. */
  lemma SyncVerifiedExactly(p: Platform, mine: seq<Op>, chain: seq<Op>)
    requires Verified(p, mine) && Verified(p, chain) && |mine| < |chain|
    ensures IsPrefix(mine, chain) ==> Verified(p, mine + chain[|mine|..])
    ensures Verified(p, mine + chain[|mine|..]) ==> IsPrefix(mine, chain) || Clash(p, mine, chain)
  {
    hide HashOp, VerifyOpSig, ShapeOk, WriterOk;
    var n := |mine|;
    var joined := mine + chain[n..];
    if IsPrefix(mine, chain) {
      assert joined == chain;
    }
    if Verified(p, joined) {
      assert OpOk(p, joined, n) && OpOk(p, chain, n);
      SameLinkSameHash(p, mine[n - 1], chain[n - 1], chain[n]);
      HashChainAgreement(p, mine, chain, n - 1);
      assert mine[..n] == mine;
    }
  }

  lemma {:induction false} DecodeAllAppend(p: Platform, list: seq<Str>, ops: seq<Op>)
    requires RepairsText(p.utf8) && Base64Inverts(p) && AllWireable(p, ops) && DecodeAll(p, list).Some?
    ensures DecodeAll(p, list + Texts(p, ops)) == Some(DecodeAll(p, list).value + ops)
    decreases |ops|
  {
    hide DecodeText, WireText, Wireable, RepairsText, DecodeAll;
    if ops == [] {
      assert list + Texts(p, ops) == list && DecodeAll(p, list).value + ops == DecodeAll(p, list).value;
    } else {
      var init, last := ops[..|ops| - 1], ops[|ops| - 1];
      DecodeAllAppend(p, list, init);
      WireRoundTrip(p, last);
      DecodeAllSnoc(p, list + Texts(p, init), WireText(p, last).value);
      assert list + Texts(p, ops) == list + Texts(p, init) + [WireText(p, last).value];
      assert DecodeAll(p, list).value + init + [last] == DecodeAll(p, list).value + ops;
    }
  }

  /**
   * `syncOwnMembershipChain` appends the author's ops beyond the list's length without verifying
   * them. A list that was received, say from a forged genesis, stays verified exactly when it is
   * already as long as the author's chain or part of it, or the two exhibit a collision.
   */
  lemma SyncExact(p: Platform, list: seq<Str>, chain: seq<Op>)
    requires RepairsText(p.utf8) && Base64Inverts(p) && AllWireable(p, chain)
    requires list != [] && ListOk(p, list) && Verified(p, chain) && HeadOf(p, chain).Some?
    ensures
      var mine := DecodeAll(p, list).value;
      var harmless := |list| >= |chain| || IsPrefix(mine, chain);
      && (harmless ==> ListOk(p, Synced(p, list, chain)))
      && (ListOk(p, Synced(p, list, chain)) ==> harmless || Clash(p, mine, chain))
  {
    hide DecodeText, OpOk, HeadHash, Texts, RepairsText, Wireable, Clash;
    var mine := DecodeAll(p, list).value;
    DecodeAllLength(p, list);
    if |list| < |chain| {
      DecodeAllAppend(p, list, chain[|list|..]);
      SyncVerifiedExactly(p, mine, chain);
    }
  }
}
