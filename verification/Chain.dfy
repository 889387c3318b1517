/** Verification and folding of an op chain. */
module Chain {
  import opened Common
  import opened ByteStrings
  import opened Ops
  import opened Canonical
  import opened Hashing

  datatype Head = Head(seqNo: int, headHash: string)

  // ----- Verification -----

  /** Payload fields are present exactly where the op's type wants them. */
  predicate ShapeOk(u: Unsigned)
  {
    match u.kind
    case Create => u.subject.None? && u.aiMode.Some? && u.initialMembers.Some?
    case Invite => u.subject.Some? && u.aiMode.None? && u.initialMembers.None?
    case Remove => u.subject.Some? && u.aiMode.None? && u.initialMembers.None?
    case SetAiMode => u.subject.None? && u.aiMode.Some? && u.initialMembers.None?
  }

  predicate LinkOk(p: Platform, ops: seq<Op>, i: nat)
    requires i < |ops|
  {
    if i == 0 then ops[i].body.prevHash == GENESIS_ZERO else HashOp(p, ops[i - 1]) == Some(ops[i].body.prevHash)
  }

  predicate WriterOk(ops: seq<Op>, i: nat)
    requires i < |ops|
  {
    && ops[i].body.author == ops[0].body.author
    && ops[i].body.authorIdentityKey == ops[0].body.authorIdentityKey
  }

  /** The op at position `i` belongs to the chain that `ops[0]` founds. */
  predicate OpOk(p: Platform, ops: seq<Op>, i: nat)
    requires i < |ops|
  {
    var op, genesis := ops[i].body, ops[0].body;
    && ShapeOk(op)
    && op.conversationId == genesis.conversationId
    && op.seqNo == i
    && LinkOk(p, ops, i)
    && VerifyOpSig(p, ops[i])
    && WriterOk(ops, i)
  }

  predicate Verified(p: Platform, ops: seq<Op>)
  {
    && ops != []
    && ops[0].body.kind.Create?
    && forall i | 0 <= i < |ops| :: OpOk(p, ops, i)
  }

  /** The linkage check of the loop body: a throw of the hash is `false`. */
  method CheckLink(p: Platform, log: seq<Op>, i: nat) returns (ok: bool)
    requires i < |log|
    ensures ok <==> LinkOk(p, log, i)
  {
    if i == 0 {
      ok := BytesEqual(log[0].body.prevHash, GENESIS_ZERO);
    } else {
      var h := HashOp(p, log[i - 1]);
      if h.None? {
        return false;
      }
      ok := BytesEqual(log[i].body.prevHash, h.value);
    }
  }

  /** The single-writer and key-pinning checks of the loop body. */
  method CheckWriter(log: seq<Op>, i: nat) returns (ok: bool)
    requires i < |log|
    ensures ok <==> WriterOk(log, i)
  {
    if i == 0 || log[i].body.author != log[0].body.author {
      return i == 0;
    }
    ok := BytesEqual(log[i].body.authorIdentityKey, log[0].body.authorIdentityKey);
  }

  /** The body of the checking loop. */
  method CheckOp(p: Platform, log: seq<Op>, i: nat) returns (ok: bool)
    requires i < |log|
    ensures ok <==> OpOk(p, log, i)
  {
    var u := log[i].body;
    if !ShapeOk(u) || u.conversationId != log[0].body.conversationId || u.seqNo != i {
      return false;
    }
    var linked := CheckLink(p, log, i);
    var signed := VerifyOpSig(p, log[i]);
    var written := CheckWriter(log, i);
    return linked && signed && written;
  }

  /**
   * `verifyChain`: accepts exactly the verified chains. A throw is `false`. Spelled out: it refuses
   * the empty chain, a genesis that is no create or is linked, a payload that is missing or does not
   * belong to its op's type, a foreign conversation, a wrong position, a broken link, a signature
   * that does not verify and a foreign author or key.
   */
  method VerifyChain(p: Platform, log: seq<Op>) returns (ok: bool)
    ensures ok <==> Verified(p, log)
    ensures log == [] || log[0].body.kind != Create || log[0].body.prevHash != GENESIS_ZERO ==> !ok
    ensures forall i | 0 <= i < |log| && log[i].body.subject.Some? != (log[i].body.kind in {Invite, Remove}) :: !ok
    ensures forall i | 0 <= i < |log| && log[i].body.aiMode.Some? != (log[i].body.kind in {Create, SetAiMode}) :: !ok
    ensures forall i | 0 <= i < |log| && log[i].body.initialMembers.Some? != log[i].body.kind.Create? :: !ok
    ensures forall i | 0 <= i < |log| && (log[i].body.seqNo != i || log[i].body.conversationId != log[0].body.conversationId) :: !ok
    ensures forall i | 0 <= i < |log| - 1 && HashOp(p, log[i]) != Some(log[i + 1].body.prevHash) :: !ok
    ensures forall i | 0 <= i < |log| && !SignatureOk(p, log[i]) :: !ok
    ensures forall i | 0 <= i < |log| && (log[i].body.author != log[0].body.author || log[i].body.authorIdentityKey != log[0].body.authorIdentityKey) :: !ok
  {
    hide HashOp, VerifyOpSig, WriterOk, ShapeOk;
    if |log| == 0 || log[0].body.kind != Create {
      return false;
    }
    var zero := CheckLink(p, log, 0);
    if log[0].body.seqNo != 0 || !zero {
      assert !OpOk(p, log, 0);
      return false;
    }
    for i := 0 to |log|
      invariant forall j | 0 <= j < i :: OpOk(p, log, j)
    {
      var good := CheckOp(p, log, i);
      if !good {
        return false;
      }
    }
    VerifiedMeans(p, log);
    return true;
  }

  /** The platform accepts the signature on the prefixed signing encoding under the op's own key. */
  predicate SignatureOk(p: Platform, op: Op)
  {
    UnsignedFits(op.body) && p.verify(op.body.authorIdentityKey, SIGN_DOMAIN + UnsignedBytes(op.body), op.sig)
  }

  /** The op as its position in a chain founded by `genesis` demands it. */
  predicate Belongs(p: Platform, genesis: Unsigned, op: Op, i: nat)
  {
    var u := op.body;
    && u.subject.Some? == (u.kind in {Invite, Remove})
    && u.aiMode.Some? == (u.kind in {Create, SetAiMode})
    && u.initialMembers.Some? == u.kind.Create?
    && u.seqNo == i && u.conversationId == genesis.conversationId
    && u.author == genesis.author && u.authorIdentityKey == genesis.authorIdentityKey
    && SignatureOk(p, op)
  }

  /** Verification in terms of the ops' fields, both ways. */
  lemma VerifiedMeans(p: Platform, ops: seq<Op>)
    ensures Verified(p, ops) <==>
            && ops != [] && ops[0].body.kind == Create && ops[0].body.prevHash == GENESIS_ZERO
            && (forall i | 0 <= i < |ops| :: Belongs(p, ops[0].body, ops[i], i))
            && (forall i | 0 <= i < |ops| - 1 :: HashOp(p, ops[i]) == Some(ops[i + 1].body.prevHash))
  {
    hide HashOp, UnsignedFits, UnsignedBytes;
    forall i | 0 <= i < |ops|
      ensures OpOk(p, ops, i) <==> LinkOk(p, ops, i) && Belongs(p, ops[0].body, ops[i], i)
    {
    }
    forall i | 0 <= i < |ops| - 1
      ensures LinkOk(p, ops, i + 1) <==> HashOp(p, ops[i]) == Some(ops[i + 1].body.prevHash)
    {
    }
    if Verified(p, ops) {
      forall i | 0 <= i < |ops| - 1
        ensures HashOp(p, ops[i]) == Some(ops[i + 1].body.prevHash)
      {
        assert OpOk(p, ops, i + 1);
      }
    } else if ops != [] && ops[0].body.kind == Create {
      var i :| 0 <= i < |ops| && !OpOk(p, ops, i);
      if i > 0 {
        assert HashOp(p, ops[i - 1]) == Some(ops[i - 1 + 1].body.prevHash) <==> LinkOk(p, ops, i);
      }
    }
  }

  // ----- Heads and hash-chain agreement -----

  /** `headOf`; `None` when the last op cannot be encoded, where the source throws. */
  function HeadOf(p: Platform, ops: seq<Op>): Option<Head>
    requires ops != []
  {
    var last := ops[|ops| - 1];
    var h :- HeadHash(p, last);
    Some(Head(last.body.seqNo, h))
  }

  /** The chain holds the op that the head names. */
  predicate Holds(p: Platform, ops: seq<Op>, h: Head)
  {
    0 <= h.seqNo < |ops| && HeadHash(p, ops[h.seqNo]) == Some(h.headHash)
  }

  /** The two chains exhibit a hash collision. */
  predicate Clash(p: Platform, a: seq<Op>, b: seq<Op>)
  {
    exists j | 0 <= j < |a| && j < |b| :: Collides(p, a[j], b[j])
  }

  /** The highest position up to `k` where the chains differ. */
  function FindClash(a: seq<Op>, b: seq<Op>, k: nat): (r: Option<nat>)
    requires k < |a| && k < |b|
    ensures r.None? ==> a[..k + 1] == b[..k + 1]
    ensures r.Some? ==> r.value <= k && a[r.value] != b[r.value]
    ensures r.Some? ==> forall i | r.value < i <= k :: a[i] == b[i]
  {
    if a[k] != b[k] then Some(k)
    else if k == 0 then None
    else
      assert a[..k + 1] == a[..k] + [a[k]] && b[..k + 1] == b[..k] + [b[k]];
      FindClash(a, b, k - 1)
  }

  /**
   * Verified chains that agree on the hash at `k` are identical up to `k`; otherwise the position
   * computed by `FindClash` holds two ops with one hash.
   */
  lemma HashChainAgreement(p: Platform, a: seq<Op>, b: seq<Op>, k: nat)
    requires Verified(p, a) && Verified(p, b) && k < |a| && k < |b|
    requires HeadHash(p, a[k]).Some? && HeadHash(p, a[k]) == HeadHash(p, b[k])
    ensures match FindClash(a, b, k)
            case None => a[..k + 1] == b[..k + 1]
            case Some(j) => Collides(p, a[j], b[j])
  {
    match FindClash(a, b, k)
    case None =>
    case Some(j) =>
      if j == k {
        SameHeadHash(p, a[k], b[k]);
      } else {
        assert OpOk(p, a, j + 1) && OpOk(p, b, j + 1);
      }
  }

  lemma VerifiedPrefix(p: Platform, ops: seq<Op>, n: nat)
    requires Verified(p, ops) && 0 < n <= |ops|
    ensures Verified(p, ops[..n])
  {
    forall i | 0 <= i < n
      ensures OpOk(p, ops[..n], i)
    {
      assert OpOk(p, ops, i);
    }
  }

  /** In a verified chain with a head, every op can be hashed. */
  lemma VerifiedHashable(p: Platform, ops: seq<Op>, i: nat)
    requires Verified(p, ops) && HeadOf(p, ops).Some? && i < |ops|
    ensures HeadHash(p, ops[i]).Some?
    ensures ops[i].body.seqNo == i
  {
    assert OpOk(p, ops, i);
    if i + 1 < |ops| {
      assert OpOk(p, ops, i + 1);
    }
  }

  /** A chain that is cut down to a held head agrees with it, or exhibits a collision. */
  lemma HeldHeadAgrees(p: Platform, a: seq<Op>, b: seq<Op>)
    requires Verified(p, a) && Verified(p, b)
    requires HeadOf(p, a).Some? && Holds(p, b, HeadOf(p, a).value)
    ensures IsPrefix(a, b) || Clash(p, a, b)
  {
    var k := |a| - 1;
    VerifiedHashable(p, a, k);
    HashChainAgreement(p, a, b, k);
    assert a[..k + 1] == a;
  }

  // ----- Fold -----

  datatype Room = Room(members: set<Str>, aiMode: bool)

  const EMPTY_ROOM := Room({}, false)

  function SetOf(xs: seq<Str>): set<Str>
  {
    set x | x in xs
  }

  function Apply(founder: Str, r: Room, u: Unsigned): Room
  {
    match u.kind
    case Create =>
      Room({founder} + (if u.initialMembers.Some? then SetOf(u.initialMembers.value) else {}),
           u.aiMode.Some? && u.aiMode.value)
    case Invite => if u.subject.Some? then r.(members := r.members + {u.subject.value}) else r
    case Remove => if u.subject.Some? then r.(members := r.members - {u.subject.value}) else r
    case SetAiMode => r.(aiMode := u.aiMode.Some? && u.aiMode.value)
  }

  function Fold(ops: seq<Op>): Room
  {
    if ops == [] then EMPTY_ROOM
    else Apply(ops[0].body.author, Fold(ops[..|ops| - 1]), ops[|ops| - 1].body)
  }

  /** `fold`: one pass over the chain. */
  method FoldLoop(log: seq<Op>) returns (room: Room)
    ensures room == Fold(log)
  {
    room := EMPTY_ROOM;
    for i := 0 to |log|
      invariant room == Fold(log[..i])
    {
      var u := log[i].body;
      assert log[..i + 1][..i] == log[..i];
      match u.kind
      case Create =>
        var members := {log[0].body.author};
        var listed := if u.initialMembers.Some? then u.initialMembers.value else [];
        for k := 0 to |listed|
          invariant members == {log[0].body.author} + SetOf(listed[..k])
        {
          assert listed[..k + 1] == listed[..k] + [listed[k]];
          members := members + {listed[k]};
        }
        assert listed[..|listed|] == listed;
        room := Room(members, u.aiMode.Some? && u.aiMode.value);
      case Invite =>
        if u.subject.Some? {
          room := room.(members := room.members + {u.subject.value});
        }
      case Remove =>
        if u.subject.Some? {
          room := room.(members := room.members - {u.subject.value});
        }
      case SetAiMode =>
        room := room.(aiMode := u.aiMode.Some? && u.aiMode.value);
    }
    assert log[..|log|] == log;
  }

  /** The op at `i` puts `user` into the member set: an invite, or a create that lists them or was founded by them. */
  predicate Adds(ops: seq<Op>, i: nat, user: Str)
    requires i < |ops|
  {
    var u := ops[i].body;
    || (u.kind.Invite? && u.subject == Some(user))
    || (u.kind.Create? && (user == ops[0].body.author || (u.initialMembers.Some? && user in u.initialMembers.value)))
  }

  /** The op at `i` ends an earlier membership of `user`: a remove, or a create (which starts over). */
  predicate Ends(ops: seq<Op>, i: nat, user: Str)
    requires i < |ops|
  {
    ops[i].body.kind.Create? || (ops[i].body.kind.Remove? && ops[i].body.subject == Some(user))
  }

  predicate SetsMode(ops: seq<Op>, i: nat)
    requires i < |ops|
  {
    ops[i].body.kind.Create? || ops[i].body.kind.SetAiMode?
  }

  /** What membership means: added at some position and not ended since. */
  predicate AddedForGood(ops: seq<Op>, i: nat, user: Str)
    requires i < |ops|
  {
    Adds(ops, i, user) && forall j | i < j < |ops| :: !Ends(ops, j, user)
  }

  lemma {:induction false} FoldMembers(ops: seq<Op>, user: Str)
    ensures user in Fold(ops).members <==> exists i | 0 <= i < |ops| :: AddedForGood(ops, i, user)
  {
    if ops != [] {
      var n := |ops| - 1;
      var init := ops[..n];
      FoldMembers(init, user);
      if user in Fold(ops).members {
        if Adds(ops, n, user) {
          assert AddedForGood(ops, n, user);
        } else {
          assert user in Fold(init).members && !Ends(ops, n, user);
          var i :| 0 <= i < n && AddedForGood(init, i, user);
          assert forall j | i < j < n :: Ends(init, j, user) <==> Ends(ops, j, user);
          assert Adds(ops, i, user);
          assert AddedForGood(ops, i, user);
        }
      }
      if i :| 0 <= i < |ops| && AddedForGood(ops, i, user) {
        if i < n {
          assert !Ends(ops, n, user);
          assert forall j | i < j < n :: Ends(init, j, user) <==> Ends(ops, j, user);
          assert AddedForGood(init, i, user);
        }
      }
    }
  }

  /** The mode is the payload of the last op that sets it. */
  lemma {:induction false} FoldMode(ops: seq<Op>, i: nat)
    requires i < |ops| && SetsMode(ops, i) && forall j | i < j < |ops| :: !SetsMode(ops, j)
    ensures Fold(ops).aiMode == (ops[i].body.aiMode == Some(true))
  {
    var n := |ops| - 1;
    if i < n {
      assert forall j | 0 <= j < n :: SetsMode(ops[..n], j) <==> SetsMode(ops, j);
      assert !SetsMode(ops, n);
      FoldMode(ops[..n], i);
    }
  }

  /** A verified chain starts with a room of exactly its author and the members it lists, in the mode it names. */
  lemma GenesisRoom(p: Platform, ops: seq<Op>)
    requires Verified(p, ops)
    ensures ops[0].body.initialMembers.Some? && ops[0].body.author in Fold(ops[..1]).members
    ensures forall u :: u in Fold(ops[..1]).members <==> u == ops[0].body.author || u in ops[0].body.initialMembers.value
    ensures Some(Fold(ops[..1]).aiMode) == ops[0].body.aiMode
  {
    hide HashOp, VerifyOpSig;
    assert OpOk(p, ops, 0);
    assert ops[..1][..0] == [];
  }

  /** Every later op of a verified chain changes exactly what its type names; a second create starts over. */
  lemma OpEffect(p: Platform, ops: seq<Op>, i: nat)
    requires Verified(p, ops) && 0 < i < |ops|
    ensures var u, before, after := ops[i].body, Fold(ops[..i]), Fold(ops[..i + 1]);
            match u.kind
            case Invite => u.subject.Some? && after == Room(before.members + {u.subject.value}, before.aiMode)
            case Remove => u.subject.Some? && after == Room(before.members - {u.subject.value}, before.aiMode)
            case SetAiMode => u.aiMode.Some? && after == Room(before.members, u.aiMode.value)
            case Create =>
              && u.aiMode.Some? && u.initialMembers.Some? && after.aiMode == u.aiMode.value
              && forall m :: m in after.members <==> m == ops[0].body.author || m in u.initialMembers.value
  {
    hide HashOp, VerifyOpSig;
    assert OpOk(p, ops, i);
    assert ops[..i + 1][..i] == ops[..i];
  }

  /** A removed user is a member again only through a later op that adds them. */
  lemma RemovalNeedsReAdd(ops: seq<Op>, r: nat, user: Str)
    requires r < |ops| && ops[r].body.kind.Remove? && ops[r].body.subject == Some(user)
    requires user in Fold(ops).members
    ensures exists q | r < q < |ops| :: Adds(ops, q, user)
  {
    FoldMembers(ops, user);
    var q :| 0 <= q < |ops| && AddedForGood(ops, q, user);
    assert Ends(ops, r, user) && !Adds(ops, r, user);
  }

  // ----- Global agreement -----

  /** Every accepted signature under `key` for one position of one conversation is on one body. */
  ghost predicate SignsOnce(p: Platform, key: Bytes, conversationId: Str)
  {
    forall a: Op, b: Op ::
      (&& VerifyOpSig(p, a) && VerifyOpSig(p, b)
       && a.body.authorIdentityKey == key && b.body.authorIdentityKey == key
       && a.body.conversationId == conversationId && b.body.conversationId == conversationId
       && a.body.seqNo == b.body.seqNo)
      ==> a.body == b.body
  }

  predicate FoundedBy(ops: seq<Op>, key: Bytes, conversationId: Str)
  {
    ops != [] && ops[0].body.authorIdentityKey == key && ops[0].body.conversationId == conversationId
  }

  lemma SameBodies(p: Platform, key: Bytes, id: Str, a: seq<Op>, b: seq<Op>, i: nat)
    requires SignsOnce(p, key, id) && Verified(p, a) && Verified(p, b)
    requires FoundedBy(a, key, id) && FoundedBy(b, key, id) && i < |a| && i < |b|
    ensures a[i].body == b[i].body
  {
    assert OpOk(p, a, i) && OpOk(p, b, i);
  }

  lemma {:induction false} SameBodiesSameFold(a: seq<Op>, b: seq<Op>)
    requires |a| == |b| && forall i | 0 <= i < |a| :: a[i].body == b[i].body
    ensures Fold(a) == Fold(b)
  {
    if a != [] {
      SameBodiesSameFold(a[..|a| - 1], b[..|b| - 1]);
    }
  }

  /**
   * With a founder who signs at most one body per position, two verified chains of a conversation
   * fold alike at every common position, and the shorter one without its last op is a prefix of
   * the other, or the chains exhibit a collision.
   */
  lemma GlobalAgreement(p: Platform, key: Bytes, id: Str, a: seq<Op>, b: seq<Op>)
    requires SignsOnce(p, key, id) && Verified(p, a) && Verified(p, b)
    requires FoundedBy(a, key, id) && FoundedBy(b, key, id) && |a| <= |b|
    ensures forall n | 0 <= n <= |a| :: Fold(a[..n]) == Fold(b[..n])
    ensures a[|a| - 1].body == b[|a| - 1].body
    ensures IsPrefix(a[..|a| - 1], b) || Clash(p, a, b)
  {
    forall i | 0 <= i < |a|
      ensures a[i].body == b[i].body
    {
      SameBodies(p, key, id, a, b, i);
    }
    forall n | 0 <= n <= |a|
      ensures Fold(a[..n]) == Fold(b[..n])
    {
      SameBodiesSameFold(a[..n], b[..n]);
    }
    if !Clash(p, a, b) {
      forall i | 0 <= i < |a| - 1
        ensures a[i] == b[i]
      {
        assert OpOk(p, a, i + 1) && OpOk(p, b, i + 1);
        assert !Collides(p, a[i], b[i]);
      }
    }
  }
}
