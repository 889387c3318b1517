/** The receiver's gate, and what holds over every run of a log. */
module Gate {
  import opened Common
  import opened ByteStrings
  import opened Ops
  import opened Hashing
  import opened Chain
  import opened Log

  /**
   * The log after the gate's catch-up attempts. A chain provider is arbitrary and may answer
   * differently each time, so its two possible answers are given separately.
   */
  function CatchUp(p: Platform, s: LogState, cited: Head, first: Option<seq<Op>>, second: Option<seq<Op>>): LogState
  {
    var s1 := if s.ops == [] && first.Some? then Ingest(p, s, first.value) else s;
    if s1.ops != [] && cited.seqNo > |s1.ops| - 1 && second.Some? then Ingest(p, s1, second.value) else s1
  }

  /** The sender is a member of the chain and the cited head lies on it. */
  predicate Authorized(p: Platform, ops: seq<Op>, sender: Str, cited: Head)
  {
    Holds(p, ops, cited) && sender in Fold(ops).members
  }

  /** The provider answered with a verified chain that extends `ops` and whose head can be named. */
  predicate Continues(p: Platform, ops: seq<Op>, answer: Option<seq<Op>>)
  {
    answer.Some? && IsPrefix(ops, answer.value) && Verified(p, answer.value) && HeadOf(p, answer.value).Some?
  }

  /**
   * `enforceInbound`: accepts exactly when a head is cited, it lies on the receiver's chain after
   * catch-up, and the sender is a member of that whole chain.
   */
  method EnforceInbound(log: MembershipLog, sender: Str, cited: Option<Head>,
                        first: Option<seq<Op>>, second: Option<seq<Op>>) returns (accepted: bool)
    requires log.Valid()
    modifies log
    ensures log.Valid()
    ensures log.State() == if cited.None? then old(log.State()) else CatchUp(log.p, old(log.State()), cited.value, first, second)
    ensures accepted <==> cited.Some? && Authorized(log.p, log.ops, sender, cited.value)
    // A receiver that is not behind keeps its chain.
    ensures cited.Some? && old(log.ops) != [] && cited.value.seqNo < |old(log.ops)| ==> log.ops == old(log.ops)
    // A receiver behind the cited head moves to the provider's chain, if that extends its own.
    ensures cited.Some? && old(log.ops) != [] && cited.value.seqNo >= |old(log.ops)| && Continues(log.p, old(log.ops), second)
            ==> log.ops == second.value
    // A receiver without a chain takes the provider's first answer, and the second if the first is behind.
    ensures cited.Some? && old(log.ops) == [] && first.Some? && Acceptable(log.p, log.conversationId, log.pin, first.value)
            ==> && (cited.value.seqNo < |first.value| ==> log.ops == first.value)
                && (cited.value.seqNo >= |first.value| && Continues(log.p, first.value, second) ==> log.ops == second.value)
    // The verdict: the cited head lies on that chain and some op of it added the sender for good.
    ensures accepted <==>
            && cited.Some? && Holds(log.p, log.ops, cited.value)
            && exists i | 0 <= i < |log.ops| :: AddedForGood(log.ops, i, sender)
  {
    hide ValidLog, HeadOf, HeadHash, Fold, OpOk, PinOk;
    if cited.Some? {
      CatchesUp(log.p, log.State(), cited.value, first, second);
    }
    if cited.None? {
      return false;
    }
    if |log.ops| == 0 {
      if first.None? {
        return false;
      }
      var r := log.IngestChain(first.value);
      if r.Fail? {
        return false;
      }
    }
    ValidHead(log.p, log.State());
    var head := log.CurrentHead();
    if cited.value.seqNo > head.value.seqNo {
      if second.None? {
        return false;
      }
      var r := log.IngestChain(second.value);
      if r.Fail? {
        return false;
      }
      ValidHead(log.p, log.State());
      head := log.CurrentHead();
      if cited.value.seqNo > head.value.seqNo {
        return false;
      }
    }
    var op := At(log.ops, cited.value.seqNo);
    if op.None? || HeadHash(log.p, op.value) != Some(cited.value.headHash) {
      return false;
    }
    FoldMembers(log.ops, sender);
    var members := log.Members();
    return sender in members.value;
  }

  /** The catch-up reaches the provider's chain. */
  lemma CatchesUp(p: Platform, s: LogState, cited: Head, first: Option<seq<Op>>, second: Option<seq<Op>>)
    requires ValidLog(p, s)
    ensures var ops := CatchUp(p, s, cited, first, second).ops;
            && (s.ops != [] && cited.seqNo >= |s.ops| && Continues(p, s.ops, second) ==> ops == second.value)
            && (s.ops == [] && first.Some? && Acceptable(p, s.conversationId, s.pin, first.value)
                ==> && (cited.seqNo < |first.value| ==> ops == first.value)
                    && (cited.seqNo >= |first.value| && Continues(p, first.value, second) ==> ops == second.value))
  {
    hide ValidLog, HeadOf, OpOk, PinOk;
    if s.ops == [] && first.Some? && Acceptable(p, s.conversationId, s.pin, first.value) {
      IngestKeepsValid(p, s, first.value);
      ExtensionAdmitted(p, s, first.value);
      ContinuationAdopted(p, Ingest(p, s, first.value), second);
    }
    if s.ops != [] {
      ContinuationAdopted(p, s, second);
    }
  }

  lemma ContinuationAdopted(p: Platform, s: LogState, answer: Option<seq<Op>>)
    requires ValidLog(p, s) && s.ops != []
    ensures Continues(p, s.ops, answer) ==> Ingest(p, s, answer.value).ops == answer.value
  {
    if Continues(p, s.ops, answer) {
      ExtensionAcceptable(p, s, answer.value);
      ExtensionAdmitted(p, s, answer.value);
    }
  }

  lemma ValidHead(p: Platform, s: LogState)
    requires ValidLog(p, s) && s.ops != []
    ensures s.watermark.Some? && s.watermark.value.seqNo == |s.ops| - 1
  {
    HeadOfPosition(p, s.ops);
  }

  /** The verdict on a sender does not depend on which head of the chain they cite. */
  lemma VerdictIgnoresCitation(p: Platform, s: LogState, sender: Str, h1: Head, h2: Head,
                               first: Option<seq<Op>>, second: Option<seq<Op>>)
    requires Holds(p, s.ops, h1) && Holds(p, s.ops, h2)
    ensures CatchUp(p, s, h1, first, second) == s
    ensures Authorized(p, CatchUp(p, s, h1, first, second).ops, sender, h1) <==>
            Authorized(p, CatchUp(p, s, h2, first, second).ops, sender, h2)
  {
  }

  // ----- Runs -----

  datatype Call =
    | Offer(candidate: seq<Op>)
    | Inbound(sender: Str, cited: Option<Head>, first: Option<seq<Op>>, second: Option<seq<Op>>)

  function Step(p: Platform, s: LogState, c: Call): LogState
  {
    match c
    case Offer(candidate) => Ingest(p, s, candidate)
    case Inbound(_, cited, first, second) => if cited.None? then s else CatchUp(p, s, cited.value, first, second)
  }

  function After(p: Platform, s: LogState, calls: seq<Call>): LogState
    decreases |calls|
  {
    if calls == [] then s else After(p, Step(p, s, calls[0]), calls[1..])
  }

  /** Some call of the run replaced the chain by one that clashes with it. */
  predicate RunClash(p: Platform, s: LogState, calls: seq<Call>)
    decreases |calls|
  {
    calls != [] &&
    (Clash(p, s.ops, Step(p, s, calls[0]).ops) || RunClash(p, Step(p, s, calls[0]), calls[1..]))
  }

  lemma StepKeepsValid(p: Platform, s: LogState, c: Call)
    requires ValidLog(p, s)
    ensures ValidLog(p, Step(p, s, c))
  {
    hide Admits, ValidLog, HeadOf;
    match c
    case Offer(candidate) => IngestKeepsValid(p, s, candidate);
    case Inbound(_, cited, first, second) =>
      if first.Some? {
        IngestKeepsValid(p, s, first.value);
        if second.Some? {
          IngestKeepsValid(p, Ingest(p, s, first.value), second.value);
        }
      }
      if second.Some? {
        IngestKeepsValid(p, s, second.value);
      }
  }

  lemma StepExtends(p: Platform, s: LogState, c: Call)
    requires ValidLog(p, s)
    ensures IsPrefix(s.ops, Step(p, s, c).ops) || Clash(p, s.ops, Step(p, s, c).ops)
  {
    hide Admits, ValidLog, Clash, HeadOf;
    match c
    case Offer(candidate) => IngestExtends(p, s, candidate);
    case Inbound(_, cited, first, second) =>
      if s.ops != [] && second.Some? {
        IngestExtends(p, s, second.value);
      }
  }

  /**
   * Whatever candidates, cited heads and provider answers a run contains, the chain at its end
   * extends the chain at its start, or some call of the run exhibits a collision.
   */
  lemma {:induction false} RunMonotone(p: Platform, s: LogState, calls: seq<Call>)
    requires ValidLog(p, s)
    ensures ValidLog(p, After(p, s, calls))
    ensures IsPrefix(s.ops, After(p, s, calls).ops) || RunClash(p, s, calls)
    decreases |calls|
  {
    if calls != [] {
      var s1 := Step(p, s, calls[0]);
      StepKeepsValid(p, s, calls[0]);
      StepExtends(p, s, calls[0]);
      RunMonotone(p, s1, calls[1..]);
      if IsPrefix(s.ops, s1.ops) && IsPrefix(s1.ops, After(p, s1, calls[1..]).ops) {
        PrefixTransitive(s.ops, s1.ops, After(p, s1, calls[1..]).ops);
      }
    }
  }

  predicate RemovesAt(ops: seq<Op>, r: nat, user: Str)
  {
    r < |ops| && ops[r].body.kind.Remove? && ops[r].body.subject == Some(user)
  }

  /**
   * Removal sticks. Once the chain holds remove(user) at `r`, then whatever happens afterwards and
   * whatever head is cited, a message of `user` is accepted only if the receiver's chain re-adds
   * them after `r`, or the run exhibits a collision.
   */
  lemma RemovalSticks(p: Platform, s: LogState, calls: seq<Call>, r: nat, user: Str,
                      cited: Head, first: Option<seq<Op>>, second: Option<seq<Op>>)
    requires ValidLog(p, s) && RemovesAt(s.ops, r, user)
    requires Authorized(p, CatchUp(p, After(p, s, calls), cited, first, second).ops, user, cited)
    ensures
      var last := Inbound(user, Some(cited), first, second);
      var ops := CatchUp(p, After(p, s, calls), cited, first, second).ops;
      RunClash(p, s, calls + [last]) || exists q | r < q < |ops| :: Adds(ops, q, user)
  {
    var last := Inbound(user, Some(cited), first, second);
    AfterAppend(p, s, calls, last);
    RunMonotone(p, s, calls + [last]);
    if !RunClash(p, s, calls + [last]) {
      var ops := CatchUp(p, After(p, s, calls), cited, first, second).ops;
      assert ops[r] == s.ops[r];
      RemovalNeedsReAdd(ops, r, user);
    }
  }

  lemma {:induction false} AfterAppend(p: Platform, s: LogState, calls: seq<Call>, c: Call)
    ensures After(p, s, calls + [c]) == Step(p, After(p, s, calls), c)
    decreases |calls|
  {
    if calls == [] {
      assert (calls + [c])[0] == c && (calls + [c])[1..] == [];
    } else {
      assert (calls + [c])[0] == calls[0] && (calls + [c])[1..] == calls[1..] + [c];
      AfterAppend(p, Step(p, s, calls[0]), calls[1..], c);
    }
  }
}
