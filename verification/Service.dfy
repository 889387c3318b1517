/** The founder's authoring service over the signed op chain. */
module Service {
  import opened Common
  import opened ByteStrings
  import opened Ops
  import opened Canonical
  import opened Hashing
  import opened Chain
  import opened Log

  /** An identity: its public key and its signing function, which draws fresh randomness on each call. */
  datatype Signer = Signer(key: Bytes, sign: (Bytes, Bytes) -> Bytes)

  ghost predicate SignerOk(p: Platform, g: Signer)
  {
    forall m, rnd :: p.verify(g.key, m, g.sign(m, rnd)) && |g.sign(m, rnd)| < U32_LIMIT
  }

  function SignOp(g: Signer, u: Unsigned, rnd: Bytes): Option<Op>
  {
    var pre :- SigningPreimage(u);
    Some(Op(u, g.sign(pre, rnd)))
  }

  datatype Change = Invites(user: Str) | Removes(user: Str) | SetsMode(enabled: bool)

  function GenesisBody(g: Signer, id: Str, creator: Str, members: seq<Str>, aiMode: bool): Unsigned
  {
    Unsigned(Create, id, 0, GENESIS_ZERO, creator, None, Some(aiMode), Some(members), g.key)
  }

  function NextBody(g: Signer, self: Str, id: Str, prev: Op, prevHash: Bytes, c: Change): Unsigned
  {
    var n := prev.body.seqNo + 1;
    match c
    case Invites(user) => Unsigned(Invite, id, n, prevHash, self, Some(user), None, None, g.key)
    case Removes(user) => Unsigned(Remove, id, n, prevHash, self, Some(user), None, None, g.key)
    case SetsMode(enabled) => Unsigned(SetAiMode, id, n, prevHash, self, None, Some(enabled), None, g.key)
  }

  // ----- One conversation -----

  /** What the service keeps of a conversation: a verified chain with a head, under its own key. */
  predicate ChainOk(p: Platform, g: Signer, id: Str, chain: seq<Op>)
  {
    Verified(p, chain) && HeadOf(p, chain).Some? && FoundedBy(chain, g.key, id)
  }

  /** The log that goes with a chain. */
  function LogFor(p: Platform, id: Str, chain: seq<Op>): LogState
    requires chain != []
  {
    LogState(id, None, chain, HeadOf(p, chain))
  }

  lemma LogForValid(p: Platform, g: Signer, id: Str, chain: seq<Op>)
    requires ChainOk(p, g, id, chain)
    ensures ValidLog(p, LogFor(p, id, chain))
  {
  }

  /** Opening a log on a kept chain adopts it. */
  lemma OpenAdopts(p: Platform, g: Signer, id: Str, chain: seq<Op>)
    requires ChainOk(p, g, id, chain)
    ensures chain[0].body.conversationId == id && LogFor(p, id, chain).conversationId == id
    ensures Admits(p, Fresh(id, None), chain) && Ingest(p, Fresh(id, None), chain) == LogFor(p, id, chain)
  {
  }

  /** The op an append would sign, if the chain can be hashed and the op fits. */
  function NextOp(p: Platform, g: Signer, self: Str, id: Str, chain: seq<Op>, c: Change, rnd: Bytes): Option<Op>
    requires chain != []
  {
    var prev := chain[|chain| - 1];
    var h :- HashOp(p, prev);
    SignOp(g, NextBody(g, self, id, prev, h, c), rnd)
  }

  lemma SignedFits(p: Platform, g: Signer, u: Unsigned, rnd: Bytes)
    requires SignerOk(p, g) && u.authorIdentityKey == g.key && UnsignedFits(u)
    ensures SignOp(g, u, rnd).Some? && SignOp(g, u, rnd).value.body == u
    ensures VerifyOpSig(p, SignOp(g, u, rnd).value) && HeadHash(p, SignOp(g, u, rnd).value).Some?
  {
  }

  lemma SignSucceeds(g: Signer, u: Unsigned, rnd: Bytes)
    ensures SignOp(g, u, rnd).Some? <==> UnsignedFits(u)
  {
  }

  lemma GenesisOk(p: Platform, g: Signer, id: Str, creator: Str, members: seq<Str>, aiMode: bool, rnd: Bytes)
    requires SignerOk(p, g) && UnsignedFits(GenesisBody(g, id, creator, members, aiMode))
    ensures var op := SignOp(g, GenesisBody(g, id, creator, members, aiMode), rnd);
            op.Some? && op.value.body == GenesisBody(g, id, creator, members, aiMode) && ChainOk(p, g, id, [op.value]) &&
            Fold([op.value]) == Room({creator} + SetOf(members), aiMode)
  {
    var u := GenesisBody(g, id, creator, members, aiMode);
    SignedFits(p, g, u, rnd);
    var op := SignOp(g, u, rnd).value;
    assert OpOk(p, [op], 0);
    assert [op][..0] == [];
  }

  /** Appending one linked, signed op of the founder keeps a chain verified. */
  lemma SnocVerified(p: Platform, chain: seq<Op>, op: Op)
    requires Verified(p, chain)
    requires OpOk(p, chain + [op], |chain|)
    ensures Verified(p, chain + [op])
  {
    var next := chain + [op];
    forall i | 0 <= i < |next|
      ensures OpOk(p, next, i)
    {
      if i < |chain| {
        assert OpOk(p, chain, i);
      }
    }
  }

  lemma NextOpOk(p: Platform, g: Signer, self: Str, id: Str, chain: seq<Op>, c: Change, rnd: Bytes)
    requires SignerOk(p, g) && ChainOk(p, g, id, chain)
    requires NextOp(p, g, self, id, chain, c, rnd).Some?
    ensures var op := NextOp(p, g, self, id, chain, c, rnd).value;
            && HeadHash(p, op).Some? && op.body.author == self
            && (chain[0].body.author == self ==> OpOk(p, chain + [op], |chain|))
  {
    hide SignOp, VerifyOpSig, HeadHash, HashOp, SignerOk, UnsignedFits;
    var prev := chain[|chain| - 1];
    var u := NextBody(g, self, id, prev, HashOp(p, prev).value, c);
    assert OpOk(p, chain, |chain| - 1);
    SignSucceeds(g, u, rnd);
    SignedFits(p, g, u, rnd);
  }

  /** An appended op is admitted by the conversation's log exactly when the service's user founded it. */
  lemma AppendAdmitted(p: Platform, g: Signer, self: Str, id: Str, chain: seq<Op>, c: Change, rnd: Bytes)
    requires SignerOk(p, g) && ChainOk(p, g, id, chain)
    requires NextOp(p, g, self, id, chain, c, rnd).Some?
    ensures var next := chain + [NextOp(p, g, self, id, chain, c, rnd).value];
            && (Admits(p, LogFor(p, id, chain), next) <==> chain[0].body.author == self)
            && (chain[0].body.author == self ==> ChainOk(p, g, id, next))
            && Ingest(p, LogFor(p, id, chain), next) == LogFor(p, id, if chain[0].body.author == self then next else chain)
  {
    hide SignerOk, NextOp, HeadHash, VerifyOpSig, LinkOk;
    var op := NextOp(p, g, self, id, chain, c, rnd).value;
    var next := chain + [op];
    NextOpOk(p, g, self, id, chain, c, rnd);
    if chain[0].body.author == self {
      SnocVerified(p, chain, op);
      HeadOfPosition(p, chain);
      assert HeadOf(p, next).Some? && Holds(p, next, HeadOf(p, chain).value);
    } else {
      assert !OpOk(p, next, |chain|);
    }
  }

  function ChangeRoom(r: Room, c: Change): Room
  {
    match c
    case Invites(user) => r.(members := r.members + {user})
    case Removes(user) => r.(members := r.members - {user})
    case SetsMode(enabled) => r.(aiMode := enabled)
  }

  lemma AppendFold(p: Platform, g: Signer, self: Str, id: Str, chain: seq<Op>, c: Change, rnd: Bytes)
    requires chain != [] && NextOp(p, g, self, id, chain, c, rnd).Some?
    ensures Fold(chain + [NextOp(p, g, self, id, chain, c, rnd).value]) == ChangeRoom(Fold(chain), c)
  {
    var op := NextOp(p, g, self, id, chain, c, rnd).value;
    assert (chain + [op])[..|chain|] == chain;
  }

  // ----- The service -----

  type Chains = map<Str, seq<Op>>

  predicate ChainsOk(p: Platform, g: Signer, chains: Chains)
  {
    forall id <- chains :: ChainOk(p, g, id, chains[id])
  }

  function CreateStep(g: Signer, chains: Chains, id: Str, creator: Str, members: seq<Str>, aiMode: bool, rnd: Bytes): Chains
  {
    var op := SignOp(g, GenesisBody(g, id, creator, members, aiMode), rnd);
    if op.Some? then chains[id := [op.value]] else chains
  }

  /** The append goes through: known conversation, encodable op, and the service's user founded it. */
  predicate CanAppend(p: Platform, g: Signer, self: Str, chains: Chains, id: Str, c: Change, rnd: Bytes)
  {
    && id in chains && chains[id] != []
    && NextOp(p, g, self, id, chains[id], c, rnd).Some?
    && chains[id][0].body.author == self
  }

  function AppendStep(p: Platform, g: Signer, self: Str, chains: Chains, id: Str, c: Change, rnd: Bytes): Chains
  {
    if CanAppend(p, g, self, chains, id, c, rnd)
    then chains[id := chains[id] + [NextOp(p, g, self, id, chains[id], c, rnd).value]]
    else chains
  }

  /** A successful append adds one op, which does to the room what was asked for and no more. */
  lemma AppendEffect(p: Platform, g: Signer, self: Str, chains: Chains, id: Str, c: Change, rnd: Bytes)
    requires CanAppend(p, g, self, chains, id, c, rnd)
    ensures
      var after := AppendStep(p, g, self, chains, id, c, rnd);
      && after.Keys == chains.Keys && (forall other <- chains | other != id :: after[other] == chains[other])
      && IsPrefix(chains[id], after[id]) && |after[id]| == |chains[id]| + 1
      && var room := Fold(chains[id]);
         match c
         case Invites(user) => Fold(after[id]) == Room(room.members + {user}, room.aiMode)
         case Removes(user) => Fold(after[id]) == Room(room.members - {user}, room.aiMode)
         case SetsMode(enabled) => Fold(after[id]) == Room(room.members, enabled)
  {
    hide NextOp, Fold;
    AppendFold(p, g, self, id, chains[id], c, rnd);
  }

  ghost predicate LogMatches(p: Platform, id: Str, chain: seq<Op>, log: MembershipLog)
    reads log
  {
    chain != [] && log.p == p && log.conversationId == id && log.State() == LogFor(p, id, chain)
  }

  class OpLogMembershipService {
    const p: Platform
    const identity: Signer
    const selfUserId: Str
    var chains: Chains
    var logs: map<Str, MembershipLog>
    /** What went to the broadcaster, in order. */
    var sent: seq<(Str, Op)>

    /** Chains are verified and every log holds exactly its chain. */
    ghost predicate Valid()
      reads this, logs.Values
    {
      && SignerOk(p, identity)
      && ChainsOk(p, identity, chains)
      && logs.Keys == chains.Keys
      && (forall id <- logs :: LogMatches(p, id, chains[id], logs[id]))
    }

    constructor (p: Platform, identity: Signer, selfUserId: Str)
      requires SignerOk(p, identity)
      ensures Valid() && chains == map[] && sent == [] && logs == map[]
      ensures this.p == p && this.identity == identity && this.selfUserId == selfUserId
    {
      this.p := p;
      this.identity := identity;
      this.selfUserId := selfUserId;
      chains := map[];
      logs := map[];
      sent := [];
    }

    method CreateConversation(id: Str, creator: Str, members: seq<Str>, aiMode: bool, rnd: Bytes) returns (r: Outcome)
      requires Valid()
      modifies this
      ensures Valid()
      ensures r.Pass? <==> UnsignedFits(GenesisBody(identity, id, creator, members, aiMode))
      ensures chains == CreateStep(identity, old(chains), id, creator, members, aiMode, rnd)
      ensures r.Pass? ==> id in chains && Fold(chains[id]) == Room({creator} + SetOf(members), aiMode)
      ensures var op := SignOp(identity, GenesisBody(identity, id, creator, members, aiMode), rnd);
              sent == if op.Some? then old(sent) + [(id, op.value)] else old(sent)
    {
      hide UnsignedFits, SignOp, GenesisBody, LogFor, Fold, SignerOk, Admits, Ingest, ValidLog, ChainOk;
      var op := SignOp(identity, GenesisBody(identity, id, creator, members, aiMode), rnd);
      SignSucceeds(identity, GenesisBody(identity, id, creator, members, aiMode), rnd);
      if op.None? {
        return Fail;
      }
      GenesisOk(p, identity, id, creator, members, aiMode, rnd);
      OpenAdopts(p, identity, id, [op.value]);
      chains := chains[id := [op.value]];
      var log := MembershipLog.Open(p, [op.value]);
      logs := logs[id := log];
      sent := sent + [(id, op.value)];
      return Pass;
    }

    /** `append`: a failed append changes nothing. */
    method Append(id: Str, c: Change, rnd: Bytes) returns (r: Outcome)
      requires Valid()
      modifies this, logs.Values
      ensures Valid() && logs == old(logs)
      ensures r.Pass? <==> CanAppend(p, identity, selfUserId, old(chains), id, c, rnd)
      ensures chains == AppendStep(p, identity, selfUserId, old(chains), id, c, rnd)
      ensures sent == if r.Fail? then old(sent)
                      else old(sent) + [(id, NextOp(p, identity, selfUserId, id, old(chains)[id], c, rnd).value)]
    {
      hide NextOp, HeadOf, SignerOk, Admits, ValidLog, ChainOk, Ingest, HeadHash, Holds, PinOk, LogFor;
      if id !in chains || |chains[id]| == 0 {
        return Fail;
      }
      var chain := chains[id];
      var op := NextOp(p, identity, selfUserId, id, chain, c, rnd);
      if op.None? {
        return Fail;
      }
      AppendAdmitted(p, identity, selfUserId, id, chain, c, rnd);
      LogForValid(p, identity, id, chain);
      var next := chain + [op.value];
      var done := logs[id].IngestChain(next);
      if done.Fail? {
        return Fail;
      }
      chains := chains[id := next];
      sent := sent + [(id, op.value)];
      return Pass;
    }

    /** `listMembers`; `None` is the throw on an unknown conversation. */
    method ListMembers(id: Str) returns (room: Option<Room>)
      requires Valid()
      ensures room == if id in chains then Some(Fold(chains[id])) else None
    {
      if id !in logs {
        return None;
      }
      var r := FoldLoop(logs[id].ops);
      return Some(r);
    }

    method InviteFor(id: Str) returns (pin: Option<Pin>)
      requires Valid()
      ensures pin.Some? <==> id in chains
      ensures id in chains ==> pin == PinFor(p, id, chains[id])
      ensures pin.Some? ==>
                && pin.value.conversationId == id && chains[id] != []
                && HeadHash(p, chains[id][0]) == Some(pin.value.genesisHash) && HeadOf(p, chains[id]) == Some(pin.value.pinnedHead)
    {
      if id !in chains || |chains[id]| == 0 {
        return None;
      }
      PinBounds(p, identity, id, chains[id], chains[id]);
      return PinFor(p, id, chains[id]);
    }
  }

  // ----- Runs of the service against the plain member-set model -----

  datatype Cmd =
    | NewRoom(id: Str, creator: Str, members: seq<Str>, aiMode: bool, rnd: Bytes)
    | ChangeIt(id: Str, change: Change, rnd: Bytes)

  /** A conversation as its users see it. */
  datatype PlainRoom = PlainRoom(creator: Str, room: Room)

  function Plain(chains: Chains): map<Str, PlainRoom>
    requires forall id <- chains :: chains[id] != []
  {
    map id | id in chains :: PlainRoom(chains[id][0].body.author, Fold(chains[id]))
  }

  function Perform(p: Platform, g: Signer, self: Str, chains: Chains, c: Cmd): Chains
  {
    match c
    case NewRoom(id, creator, members, aiMode, rnd) => CreateStep(g, chains, id, creator, members, aiMode, rnd)
    case ChangeIt(id, change, rnd) => AppendStep(p, g, self, chains, id, change, rnd)
  }

  /** The command's op fits the wire format. */
  predicate CmdFits(p: Platform, g: Signer, self: Str, chains: Chains, c: Cmd)
  {
    match c
    case NewRoom(id, creator, members, aiMode, _) => UnsignedFits(GenesisBody(g, id, creator, members, aiMode))
    case ChangeIt(id, change, rnd) => id in chains && chains[id] != [] && NextOp(p, g, self, id, chains[id], change, rnd).Some?
  }

  /** The plain model: a set of members and a flag per conversation, changed by its creator only. */
  function PlainStep(self: Str, m: map<Str, PlainRoom>, c: Cmd): map<Str, PlainRoom>
  {
    match c
    case NewRoom(id, creator, members, aiMode, _) => m[id := PlainRoom(creator, Room({creator} + SetOf(members), aiMode))]
    case ChangeIt(id, change, _) =>
      if id in m && m[id].creator == self then m[id := m[id].(room := ChangeRoom(m[id].room, change))] else m
  }

  lemma CreateRefines(p: Platform, g: Signer, self: Str, chains: Chains, c: Cmd)
    requires SignerOk(p, g) && ChainsOk(p, g, chains) && c.NewRoom? && CmdFits(p, g, self, chains, c)
    ensures ChainsOk(p, g, Perform(p, g, self, chains, c))
    ensures Plain(Perform(p, g, self, chains, c)) == PlainStep(self, Plain(chains), c)
  {
    hide UnsignedFits, SignOp, HeadOf, Fold, SignerOk;
    GenesisOk(p, g, c.id, c.creator, c.members, c.aiMode, c.rnd);
  }

  lemma AppendRefines(p: Platform, g: Signer, self: Str, chains: Chains, c: Cmd)
    requires SignerOk(p, g) && ChainsOk(p, g, chains) && c.ChangeIt? && CmdFits(p, g, self, chains, c)
    ensures ChainsOk(p, g, Perform(p, g, self, chains, c))
    ensures Plain(Perform(p, g, self, chains, c)) == PlainStep(self, Plain(chains), c)
  {
    hide NextOp, HeadOf, Fold, SignerOk, Admits, OpOk;
    AppendAdmitted(p, g, self, c.id, chains[c.id], c.change, c.rnd);
    AppendFold(p, g, self, c.id, chains[c.id], c.change, c.rnd);
  }

  lemma PerformRefines(p: Platform, g: Signer, self: Str, chains: Chains, c: Cmd)
    requires SignerOk(p, g) && ChainsOk(p, g, chains)
    ensures ChainsOk(p, g, Perform(p, g, self, chains, c))
    ensures Plain(Perform(p, g, self, chains, c)) ==
            if CmdFits(p, g, self, chains, c) then PlainStep(self, Plain(chains), c) else Plain(chains)
  {
    hide ChainOk, Fold, SignerOk, UnsignedBytes, HashOp;
    if CmdFits(p, g, self, chains, c) {
      if c.NewRoom? {
        CreateRefines(p, g, self, chains, c);
      } else {
        AppendRefines(p, g, self, chains, c);
      }
    }
  }

  function PerformAll(p: Platform, g: Signer, self: Str, chains: Chains, cmds: seq<Cmd>): Chains
    decreases |cmds|
  {
    if cmds == [] then chains else PerformAll(p, g, self, Perform(p, g, self, chains, cmds[0]), cmds[1..])
  }

  function PlainAll(p: Platform, g: Signer, self: Str, chains: Chains, m: map<Str, PlainRoom>, cmds: seq<Cmd>): map<Str, PlainRoom>
    decreases |cmds|
  {
    if cmds == [] then m
    else
      var m1 := if CmdFits(p, g, self, chains, cmds[0]) then PlainStep(self, m, cmds[0]) else m;
      PlainAll(p, g, self, Perform(p, g, self, chains, cmds[0]), m1, cmds[1..])
  }

  /** Over every run the folded chains are the plain model, and all chains stay verified. */
  lemma {:induction false} AuthoringRefinesPlainModel(p: Platform, g: Signer, self: Str, chains: Chains, cmds: seq<Cmd>)
    requires SignerOk(p, g) && ChainsOk(p, g, chains)
    ensures ChainsOk(p, g, PerformAll(p, g, self, chains, cmds))
    ensures Plain(PerformAll(p, g, self, chains, cmds)) == PlainAll(p, g, self, chains, Plain(chains), cmds)
    decreases |cmds|
  {
    if cmds != [] {
      PerformRefines(p, g, self, chains, cmds[0]);
      AuthoringRefinesPlainModel(p, g, self, Perform(p, g, self, chains, cmds[0]), cmds[1..]);
    }
  }

  predicate ReCreates(cmds: seq<Cmd>, id: Str)
  {
    exists c <- cmds :: c.NewRoom? && c.id == id
  }

  /** A conversation that is not created again only grows. */
  lemma {:induction false} AuthoringExtends(p: Platform, g: Signer, self: Str, chains: Chains, cmds: seq<Cmd>, id: Str)
    requires SignerOk(p, g) && ChainsOk(p, g, chains) && id in chains && !ReCreates(cmds, id)
    ensures ChainsOk(p, g, PerformAll(p, g, self, chains, cmds))
    ensures id in PerformAll(p, g, self, chains, cmds)
    ensures IsPrefix(chains[id], PerformAll(p, g, self, chains, cmds)[id])
    decreases |cmds|
  {
    hide ChainOk, SignOp, NextOp, SignerOk, Apply;
    if cmds != [] {
      assert cmds[0] in cmds && forall c <- cmds[1..] :: c in cmds;
      PerformRefines(p, g, self, chains, cmds[0]);
      var mid := Perform(p, g, self, chains, cmds[0]);
      AuthoringExtends(p, g, self, mid, cmds[1..], id);
      var last := PerformAll(p, g, self, chains, cmds)[id];
      assert last[..|mid[id]|][..|chains[id]|] == last[..|chains[id]|];
    }
  }

  // ----- Invite pins -----

  /** Genesis hash and current head of a chain. */
  function PinFor(p: Platform, id: Str, chain: seq<Op>): Option<Pin>
  {
    if chain == [] then None
    else
      var genesisHash :- HeadHash(p, chain[0]);
      var head :- HeadOf(p, chain);
      Some(Pin(id, genesisHash, head))
  }

  /** A pin admits every extension of the chain it was made from and refuses every shorter chain. */
  lemma PinBounds(p: Platform, g: Signer, id: Str, chain: seq<Op>, later: seq<Op>)
    requires ChainOk(p, g, id, chain) && ChainOk(p, g, id, later)
    ensures PinFor(p, id, chain).Some?
    ensures IsPrefix(chain, later) ==> Admits(p, Fresh(PinFor(p, id, chain).value.conversationId, PinFor(p, id, chain)), later)
    ensures |later| < |chain| ==> !Admits(p, Fresh(PinFor(p, id, chain).value.conversationId, PinFor(p, id, chain)), later)
  {
    hide OpOk, HeadHash;
    VerifiedHashable(p, chain, 0);
    HeadOfPosition(p, chain);
    if IsPrefix(chain, later) {
      assert later[0] == chain[0] && later[|chain| - 1] == chain[|chain| - 1];
    }
  }

  /**
   * A pin handed out at any time admits the conversation's chain at every later time, as long as
   * the conversation is not created again.
   */
  lemma PinAdmitsLaterChains(p: Platform, g: Signer, self: Str, chains: Chains, cmds: seq<Cmd>, id: Str)
    requires SignerOk(p, g) && ChainsOk(p, g, chains) && id in chains && !ReCreates(cmds, id)
    ensures id in PerformAll(p, g, self, chains, cmds)
    ensures PinFor(p, id, chains[id]).Some?
    ensures Admits(p, Fresh(PinFor(p, id, chains[id]).value.conversationId, PinFor(p, id, chains[id])),
                   PerformAll(p, g, self, chains, cmds)[id])
  {
    AuthoringExtends(p, g, self, chains, cmds, id);
    PinBounds(p, g, id, chains[id], PerformAll(p, g, self, chains, cmds)[id]);
  }
}
