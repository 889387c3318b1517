/** The client object: incoming ops, roster, incoming envelopes and persistence. */
module Client {
  import opened Common
  import opened ByteStrings
  import opened Ops
  import opened Decoding
  import opened CanonicalCursor
  import opened Hashing
  import opened Chain
  import opened Log
  import opened Gate
  import opened ClientView

  datatype CachedMember = CachedMember(deviceIds: seq<int>, joinedAt: int)

  datatype Conversation = Conversation(
    members: map<Str, CachedMember>,
    aiMode: bool,
    adminUserId: Option<Str>,
    membershipOps: seq<Str>)

  const NEW_CONVERSATION := Conversation(map[], false, None, [])

  /** An entry of the relay's directory. */
  datatype Listed = Listed(userId: Str, deviceIds: seq<int>)

  /** What decrypting and parsing an envelope gave. */
  datatype Opened = Undecryptable | Unparsable | Message(msgId: Str, cited: Option<Head>)

  /** What became of an envelope. Every fate but the first is acknowledged. */
  datatype Fate = KeptBack | Malformed | Refused | Duplicate | Surfaced

  /** The gate at the client: no usable log, no head, a foreign head or a non-member sender refuses. */
  predicate Passes(p: Platform, log: Option<LogState>, sender: Str, cited: Option<Head>)
  {
    log.Some? && cited.Some? && Authorized(p, log.value.ops, sender, cited.value)
  }

  function FateOf(p: Platform, log: Option<LogState>, seen: set<Str>, sender: Str, content: Opened): Fate
  {
    match content
    case Undecryptable => KeptBack
    case Unparsable => Malformed
    case Message(msgId, cited) =>
      if !Passes(p, log, sender, cited) then Refused else if msgId in seen then Duplicate else Surfaced
  }

  predicate HasDevice(raw: seq<Listed>, t: (Str, int))
  {
    exists m <- raw :: m.userId == t.0 && t.1 in m.deviceIds
  }

  /** Exactly the devices that the relay lists for users in `allowed`. */
  ghost predicate GatedRoster(allowed: set<Str>, raw: seq<Listed>, roster: seq<(Str, int)>)
  {
    && (forall t <- roster :: t.0 in allowed && HasDevice(raw, t))
    && (forall t: (Str, int) | t.0 in allowed && HasDevice(raw, t) :: t in roster)
  }

  lemma HasDeviceSnoc(raw: seq<Listed>, m: Listed, t: (Str, int))
    ensures HasDevice(raw + [m], t) <==> HasDevice(raw, t) || (m.userId == t.0 && t.1 in m.deviceIds)
  {
    if HasDevice(raw, t) {
      var x :| x in raw && x.userId == t.0 && t.1 in x.deviceIds;
      assert x in raw + [m];
    }
    assert m in raw + [m];
  }

  method AppendDevices(roster: seq<(Str, int)>, m: Listed) returns (r: seq<(Str, int)>)
    ensures forall t: (Str, int) :: t in r <==> t in roster || (t.0 == m.userId && t.1 in m.deviceIds)
  {
    r := roster;
    for j := 0 to |m.deviceIds|
      invariant forall t: (Str, int) :: t in r <==> t in roster || (t.0 == m.userId && t.1 in m.deviceIds[..j])
    {
      assert m.deviceIds[..j + 1] == m.deviceIds[..j] + [m.deviceIds[j]];
      r := r + [(m.userId, m.deviceIds[j])];
    }
    assert m.deviceIds[..|m.deviceIds|] == m.deviceIds;
  }

  method GateRoster(allowed: set<Str>, raw: seq<Listed>) returns (roster: seq<(Str, int)>)
    ensures GatedRoster(allowed, raw, roster)
  {
    roster := [];
    for i := 0 to |raw|
      invariant GatedRoster(allowed, raw[..i], roster)
    {
      assert raw[..i + 1] == raw[..i] + [raw[i]];
      forall t: (Str, int)
        ensures HasDevice(raw[..i + 1], t) <==> HasDevice(raw[..i], t) || (raw[i].userId == t.0 && t.1 in raw[i].deviceIds)
      {
        HasDeviceSnoc(raw[..i], raw[i], t);
      }
      if raw[i].userId in allowed {
        roster := AppendDevices(roster, raw[i]);
      }
    }
    assert raw[..|raw|] == raw;
  }

  /** Offering a log its own chain changes nothing. */
  lemma SelfOffer(p: Platform, s: LogState)
    requires ValidLog(p, s)
    ensures Ingest(p, s, s.ops) == s
  {
    hide OpOk, HeadHash;
    if s.ops != [] {
      HeadOfPosition(p, s.ops);
    }
  }

  lemma {:induction false} DecodedPrefix(p: Platform, list: seq<Str>, longer: seq<Str>)
    requires IsPrefix(list, longer) && DecodeAll(p, longer).Some?
    ensures DecodeAll(p, list).Some? && IsPrefix(DecodeAll(p, list).value, DecodeAll(p, longer).value)
    decreases |longer|
  {
    hide DecodeText;
    if |list| == |longer| {
      assert list == longer;
    } else {
      var init := longer[..|longer| - 1];
      assert init[..|list|] == list;
      DecodedPrefix(p, list, init);
    }
  }

  /** The gate spelled out on the persisted list. */
  lemma PassesExactly(p: Platform, pin: Option<Pin>, list: seq<Str>, sender: Str, cited: Option<Head>)
    ensures Passes(p, Rebuild(p, pin, list), sender, cited) <==>
            && DecodeAll(p, list).Some? && cited.Some?
            && var chain := DecodeAll(p, list).value;
               && chain != [] && Admits(p, StartLog(pin, chain), chain)
               && Holds(p, chain, cited.value)
               && exists i | 0 <= i < |chain| :: AddedForGood(chain, i, sender)
  {
    hide DecodeAll, Verified, HeadOf, Holds, AddedForGood, Fold;
    if DecodeAll(p, list).Some? {
      FoldMembers(DecodeAll(p, list).value, sender);
    }
  }

  /** Whoever is added for good was added after every removal. */
  lemma RemovedThenAdded(chain: seq<Op>, user: Str)
    requires exists i | 0 <= i < |chain| :: AddedForGood(chain, i, user)
    ensures forall r | RemovesAt(chain, r, user) :: ReAdded(chain, r, user)
  {
    var i :| 0 <= i < |chain| && AddedForGood(chain, i, user);
    forall r | RemovesAt(chain, r, user)
      ensures ReAdded(chain, r, user)
    {
      assert Ends(chain, r, user) && Adds(chain, i, user);
    }
  }

  /** Some op after `r` adds the user. */
  predicate ReAdded(chain: seq<Op>, r: nat, user: Str)
  {
    exists q | r < q < |chain| :: Adds(chain, q, user)
  }

  /**
   * Removal sticks at the client, with no assumption on the hash: once its list holds remove(user)
   * at `r`, whatever frames and pins arrive, a message of `user` is surfaced, or kept from surfacing
   * only as a duplicate, only if the list has grown by an op that re-adds them.
   */
  lemma RemovalSticksAtClient(p: Platform, list: seq<Str>, arrivals: seq<Arrival>, pin: Option<Pin>,
                              r: nat, user: Str, seen: set<Str>, content: Opened)
    requires ListOk(p, list) && DecodeAll(p, list).Some? && RemovesAt(DecodeAll(p, list).value, r, user)
    requires FateOf(p, Rebuild(p, pin, ReceiveAll(p, list, arrivals)), seen, user, content) in {Surfaced, Duplicate}
    ensures
      var chain := DecodeAll(p, ReceiveAll(p, list, arrivals));
      chain.Some? && ReAdded(chain.value, r, user)
  {
    hide ListOk, Holds, Rebuild, ReceiveAll, ValidLog, Admits, Adds, Authorized;
    var longer := ReceiveAll(p, list, arrivals);
    ReceiveAllKeepsList(p, list, arrivals);
    PassesExactly(p, pin, longer, user, content.cited);
    DecodedPrefix(p, list, longer);
    var chain := DecodeAll(p, longer).value;
    assert RemovesAt(chain, r, user);
    RemovedThenAdded(chain, user);
  }

  class SignalAiClient {
    const p: Platform
    const userId: Str
    var conversations: map<Str, Conversation>
    var joinPins: map<Str, Pin>
    var seenMsgIds: set<Str>
    /** Message ids handed to the application, in order. */
    var surfaced: seq<Str>
    /** Acknowledgements sent, in order. */
    var acks: seq<(Str, nat)>

    /** Everything persisted decodes, so that a rebuild never throws. */
    ghost predicate Valid()
      reads this
    {
      forall id <- conversations :: DecodeAll(p, conversations[id].membershipOps).Some?
    }

    constructor (p: Platform, userId: Str)
      ensures Valid() && this.p == p && this.userId == userId
      ensures conversations == map[] && joinPins == map[] && seenMsgIds == {} && surfaced == [] && acks == []
    {
      this.p := p;
      this.userId := userId;
      conversations := map[];
      joinPins := map[];
      seenMsgIds := {};
      surfaced := [];
      acks := [];
    }

    function PinAt(id: Str): Option<Pin>
      reads this
    {
      if id in joinPins then Some(joinPins[id]) else None
    }

    ghost function LogAt(id: Str): Option<LogState>
      reads this
    {
      if id in conversations then Rebuild(p, PinAt(id), conversations[id].membershipOps) else None
    }

    /** `membershipLogFor`; null is `undefined`. */
    method MembershipLogFor(id: Str) returns (log: MembershipLog?)
      requires Valid()
      ensures LogAt(id).None? ==> log == null
      ensures LogAt(id).Some? ==> log != null && fresh(log) && log.p == p && log.Valid() && log.State() == LogAt(id).value
    {
      hide Admits, ValidLog, DecodeText;
      if id !in conversations || |conversations[id].membershipOps| == 0 {
        return null;
      }
      var chain := DecodeList(p, conversations[id].membershipOps);
      DecodeAllLength(p, conversations[id].membershipOps);
      if id in joinPins {
        log := new MembershipLog(p, joinPins[id].conversationId, Some(joinPins[id]));
        var r := log.IngestChain(chain);
        if r.Fail? {
          return null;
        }
      } else {
        log := MembershipLog.Open(p, chain);
      }
    }

    /** `handleIncomingOp`: the list takes the op exactly as `Receive` says; nothing else changes. */
    method HandleIncomingOp(id: Str, seqNo: nat, op: Str)
      requires Valid()
      modifies this`conversations
      ensures Valid()
      ensures conversations ==
              if DecodeText(p, op).None? then old(conversations)
              else
                var c := if id in old(conversations) then old(conversations)[id] else NEW_CONVERSATION;
                old(conversations)[id := c.(membershipOps := Receive(p, PinAt(id), c.membershipOps, seqNo, op))]
    {
      hide Rebuild, DecodeText, DecodeAll, DecodeOp, ValidLog;
      DecodeNone(p);
      var decoded := Decode(p, p.fromBase64(op));
      assert decoded == DecodeText(p, op) by { DecodeTextIs(p, op); }
      if decoded.None? {
        return;
      }
      var base := conversations;
      var c := if id in base then base[id] else NEW_CONVERSATION;
      conversations := base[id := c];
      if seqNo != |c.membershipOps| {
        return;
      }
      DecodeAllSnoc(p, c.membershipOps, op);
      conversations := base[id := c.(membershipOps := c.membershipOps + [op])];
      var log := MembershipLogFor(id);
      if log == null {
        conversations := base[id := c];
      }
    }

    /** `syncOwnMembershipChain` from the service's chain. */
    method SyncOwnMembershipChain(id: Str, chain: seq<Op>)
      requires Valid() && RepairsText(p.utf8) && Base64Inverts(p) && AllWireable(p, chain)
      modifies this`conversations
      ensures Valid()
      ensures conversations ==
              if id !in old(conversations) then old(conversations)
              else
                var c := old(conversations)[id];
                old(conversations)[id := c.(membershipOps := Synced(p, c.membershipOps, chain))]
    {
      hide RepairsText, Wireable, DecodeText, WireText, DecodeAll;
      if id !in conversations {
        return;
      }
      var base, c := conversations, conversations[id];
      var from := |c.membershipOps|;
      var list := c.membershipOps;
      if from < |chain| {
        for i := from to |chain|
          invariant list == c.membershipOps + Texts(p, chain[from..i])
          invariant DecodeAll(p, list).Some?
        {
          var op := chain[i];
          assert op in chain;
          WireRoundTrip(p, op);
          DecodeAllSnoc(p, list, WireText(p, op).value);
          assert chain[from..i + 1][..i - from] == chain[from..i];
          list := list + [WireText(p, op).value];
        }
        assert chain[from..|chain|] == chain[from..];
      }
      conversations := base[id := c.(membershipOps := list)];
    }

    method AcceptInvitePin(pin: Pin)
      requires Valid()
      modifies this`joinPins
      ensures Valid() && joinPins == old(joinPins)[pin.conversationId := pin]
    {
      joinPins := joinPins[pin.conversationId := pin];
    }

    /** The roster of `listMembers`: relay entries gated by the fold, nothing without a usable log. */
    method Roster(id: Str, raw: seq<Listed>) returns (roster: seq<(Str, int)>)
      requires Valid()
      ensures LogAt(id).None? ==> roster == []
      ensures LogAt(id).Some? ==> GatedRoster(Fold(LogAt(id).value.ops).members, raw, roster)
    {
      hide Rebuild, ValidLog;
      var log := MembershipLogFor(id);
      if log == null {
        return [];
      }
      var room := FoldLoop(log.ops);
      roster := GateRoster(room.members, raw);
    }

    /** The targets of `sendRaw`: exactly the gated devices of other users. */
    method SendTargets(id: Str, raw: seq<Listed>) returns (targets: seq<(Str, int)>)
      requires Valid()
      ensures LogAt(id).None? ==> targets == []
      ensures LogAt(id).Some? ==>
                forall t: (Str, int) :: t in targets <==>
                  t.0 in Fold(LogAt(id).value.ops).members && t.0 != userId && HasDevice(raw, t)
    {
      hide Rebuild, Fold, HasDevice;
      var roster := Roster(id, raw);
      targets := [];
      for i := 0 to |roster|
        invariant roster == [] ==> targets == []
        invariant forall t: (Str, int) :: t in targets <==> t in roster[..i] && t.0 != userId
      {
        assert roster[..i + 1] == roster[..i] + [roster[i]];
        if roster[i].0 != userId {
          targets := targets + [roster[i]];
        }
      }
      assert roster[..|roster|] == roster;
    }

    /**
     * `handleIncomingEnvelope` on a decrypted or undecryptable envelope. A message is let in exactly
     * when the conversation's list is a chain that its pin admits, the cited head lies on that chain
     * and some op of it added the sender for good; an id is surfaced once.
     */
    method HandleIncomingEnvelope(id: Str, sender: Str, seqNo: nat, content: Opened, linked: bool) returns (fate: Fate)
      requires Valid()
      modifies this`seenMsgIds, this`surfaced, this`acks
      ensures fate == FateOf(p, LogAt(id), old(seenMsgIds), sender, content)
      ensures fate.KeptBack? <==> content.Undecryptable?
      ensures fate.Malformed? <==> content.Unparsable?
      ensures fate in {Surfaced, Duplicate} <==>
              && content.Message? && content.cited.Some? && id in conversations
              && var list := DecodeAll(p, conversations[id].membershipOps);
                 && list.Some? && list.value != [] && Admits(p, StartLog(PinAt(id), list.value), list.value)
                 && Holds(p, list.value, content.cited.value)
                 && exists i | 0 <= i < |list.value| :: AddedForGood(list.value, i, sender)
      ensures fate.Surfaced? ==> content.msgId !in old(seenMsgIds)
      ensures fate.Duplicate? ==> content.msgId in old(seenMsgIds)
      ensures fate.Surfaced? ==>
                var list := DecodeAll(p, conversations[id].membershipOps);
                list.Some? && forall r | RemovesAt(list.value, r, sender) :: ReAdded(list.value, r, sender)
      ensures seenMsgIds == if fate.Surfaced? then old(seenMsgIds) + {content.msgId} else old(seenMsgIds)
      ensures surfaced == if fate.Surfaced? then old(surfaced) + [content.msgId] else old(surfaced)
      ensures acks == if linked && !fate.KeptBack? then old(acks) + [(id, seqNo)] else old(acks)
    {
      hide Rebuild, Authorized, ValidLog, Ingest, DecodeAll, Admits, Holds, AddedForGood, Continues, Acceptable, RemovesAt, ReAdded;
      if content.Message? && id in conversations {
        var list := conversations[id].membershipOps;
        PassesExactly(p, PinAt(id), list, sender, content.cited);
        if Passes(p, LogAt(id), sender, content.cited) {
          RemovedThenAdded(DecodeAll(p, list).value, sender);
        }
      }
      if content.Undecryptable? {
        return KeptBack;
      }
      if content.Unparsable? {
        fate := Malformed;
      } else {
        var log := MembershipLogFor(id);
        var accepted := false;
        if log != null {
          SelfOffer(p, log.State());
          var chain := log.ops;
          accepted := EnforceInbound(log, sender, content.cited, Some(chain), Some(chain));
        }
        if !accepted {
          fate := Refused;
        } else if content.msgId in seenMsgIds {
          fate := Duplicate;
        } else {
          fate := Surfaced;
          seenMsgIds := seenMsgIds + {content.msgId};
          surfaced := surfaced + [content.msgId];
        }
      }
      if linked {
        acks := acks + [(id, seqNo)];
      }
    }
  }

  // ----- Everything that reaches a client -----

  datatype Incoming =
    | OpFrame(id: Str, seqNo: nat, op: Str)
    | PinCode(pin: Pin)
    | Envelope(id: Str, sender: Str, seqNo: nat, content: Opened, linked: bool)

  /** The list is verified and removes the user at `r`. */
  predicate ListRemoves(p: Platform, list: seq<Str>, r: nat, user: Str)
  {
    ListOk(p, list) && DecodeAll(p, list).Some? && RemovesAt(DecodeAll(p, list).value, r, user)
  }

  predicate ListReAdds(p: Platform, list: seq<Str>, r: nat, user: Str)
  {
    DecodeAll(p, list).Some? && ReAdded(DecodeAll(p, list).value, r, user)
  }

  /** Both survive a frame. */
  lemma FrameKeeps(p: Platform, pin: Option<Pin>, list: seq<Str>, seqNo: nat, op: Str, r: nat, user: Str)
    requires ListRemoves(p, list, r, user)
    ensures var longer := Receive(p, pin, list, seqNo, op);
            && ListRemoves(p, longer, r, user) && IsPrefix(list, longer)
            && (ListReAdds(p, list, r, user) ==> ListReAdds(p, longer, r, user))
  {
    hide ListOk, Rebuild, DecodeText;
    ReceiveKeepsList(p, pin, list, seqNo, op);
    if Rebuild(p, pin, list + [op]).Some? {
      RebuildOk(p, pin, list + [op]);
      DecodeAllSnoc(p, list, op);
      if ListReAdds(p, list, r, user) {
        var chain, longer := DecodeAll(p, list).value, DecodeAll(p, list + [op]).value;
        var q :| r < q < |chain| && Adds(chain, q, user);
        assert longer[q] == chain[q] && longer[0] == chain[0];
        assert Adds(longer, q, user);
      }
    }
  }

  /**
   * The client's callbacks over any sequence of op frames, pins and envelopes. If the list of a
   * conversation holds remove(user) at the start, an envelope of that user in that conversation is
   * surfaced only if the list re-adds them after the removal.
   */
  method HandleAll(c: SignalAiClient, incoming: seq<Incoming>, ghost id: Str, ghost r: nat, ghost user: Str)
      returns (fates: seq<Option<Fate>>)
    requires c.Valid()
    modifies c
    ensures c.Valid() && |fates| == |incoming|
    ensures id in old(c.conversations) && ListRemoves(c.p, old(c.conversations[id].membershipOps), r, user) ==>
              && id in c.conversations && IsPrefix(old(c.conversations[id].membershipOps), c.conversations[id].membershipOps)
              && forall k | 0 <= k < |incoming| && SurfacedFrom(incoming[k], fates[k], id, user) ::
                   ListReAdds(c.p, c.conversations[id].membershipOps, r, user)
  {
    hide ListRemoves, ListReAdds, Receive, FateOf, DecodeAll, DecodeText, Admits;
    fates := [];
    ghost var start := id in c.conversations && ListRemoves(c.p, c.conversations[id].membershipOps, r, user);
    for i := 0 to |incoming|
      invariant c.Valid() && |fates| == i
      invariant start ==> id in c.conversations && ListRemoves(c.p, c.conversations[id].membershipOps, r, user)
      invariant start ==> IsPrefix(old(c.conversations[id].membershipOps), c.conversations[id].membershipOps)
      invariant start ==> forall k | 0 <= k < i && SurfacedFrom(incoming[k], fates[k], id, user) ::
                            ListReAdds(c.p, c.conversations[id].membershipOps, r, user)
    {
      match incoming[i]
      case OpFrame(at, seqNo, op) =>
        if start {
          FrameKeeps(c.p, c.PinAt(id), c.conversations[id].membershipOps, seqNo, op, r, user);
        }
        c.HandleIncomingOp(at, seqNo, op);
        fates := fates + [None];
      case PinCode(pin) =>
        c.AcceptInvitePin(pin);
        fates := fates + [None];
      case Envelope(at, sender, seqNo, content, linked) =>
        var fate := c.HandleIncomingEnvelope(at, sender, seqNo, content, linked);
        if start && at == id && sender == user && fate.Surfaced? {
          SurfacedReAdds(c.p, c.conversations[id].membershipOps, r, user);
        }
        fates := fates + [Some(fate)];
    }
  }

  predicate SurfacedFrom(x: Incoming, fate: Option<Fate>, id: Str, user: Str)
  {
    x.Envelope? && x.id == id && x.sender == user && fate == Some(Surfaced)
  }

  lemma SurfacedReAdds(p: Platform, list: seq<Str>, r: nat, user: Str)
    requires ListRemoves(p, list, r, user)
    requires forall r | RemovesAt(DecodeAll(p, list).value, r, user) :: ReAdded(DecodeAll(p, list).value, r, user)
    ensures ListReAdds(p, list, r, user)
  {
  }

  lemma DecodeNone(p: Platform)
    ensures DecodeAll(p, []) == Some([])
  {
  }

  lemma DecodeTextIs(p: Platform, s: Str)
    ensures DecodeText(p, s) == DecodeOp(p, p.fromBase64(s))
  {
    hide DecodeOp;
  }

  method DecodeList(p: Platform, list: seq<Str>) returns (chain: seq<Op>)
    requires DecodeAll(p, list).Some?
    ensures Some(chain) == DecodeAll(p, list)
  {
    hide DecodeOp;
    chain := [];
    for i := 0 to |list|
      invariant DecodeAll(p, list[..i]) == Some(chain)
    {
      PrefixDecodes(p, list, i + 1);
      assert list[..i + 1] == list[..i] + [list[i]];
      DecodeAllSnoc(p, list[..i], list[i]);
      var op := Decode(p, p.fromBase64(list[i]));
      chain := chain + [op.value];
    }
    assert list[..|list|] == list;
  }

  lemma {:induction false} PrefixDecodes(p: Platform, list: seq<Str>, n: nat)
    requires DecodeAll(p, list).Some? && n <= |list|
    ensures DecodeAll(p, list[..n]).Some?
    decreases |list|
  {
    hide DecodeText;
    if n < |list| {
      PrefixDecodes(p, list[..|list| - 1], n);
      assert list[..|list| - 1][..n] == list[..n];
    } else {
      assert list[..n] == list;
    }
  }

  // ----- Persistence of the conversations -----

  datatype SavedConversation = SavedConversation(
    members: seq<(Str, CachedMember)>,
    aiMode: bool,
    adminUserId: Option<Str>,
    membershipOps: Option<seq<Str>>)

  /** A JavaScript `Map` built from entries: later entries win. */
  function FromEntries<V>(entries: seq<(Str, V)>): map<Str, V>
  {
    if entries == [] then map[]
    else FromEntries(entries[..|entries| - 1])[entries[|entries| - 1].0 := entries[|entries| - 1].1]
  }

  function LoadOne(s: SavedConversation): Conversation
  {
    Conversation(FromEntries(s.members), s.aiMode, s.adminUserId, if s.membershipOps.Some? then s.membershipOps.value else [])
  }

  function LoadAll(saved: seq<(Str, SavedConversation)>): map<Str, Conversation>
  {
    if saved == [] then map[]
    else LoadAll(saved[..|saved| - 1])[saved[|saved| - 1].0 := LoadOne(saved[|saved| - 1].1)]
  }

  lemma {:induction false} LastEntryWins<V>(entries: seq<(Str, V)>, k: Str)
    ensures k in FromEntries(entries) <==> exists i | 0 <= i < |entries| :: entries[i].0 == k
    ensures forall i | 0 <= i < |entries| && IsLast(entries, i, k) :: FromEntries(entries)[k] == entries[i].1
  {
    if entries != [] {
      var n := |entries| - 1;
      var init := entries[..n];
      LastEntryWins(init, k);
      assert entries[n].0 == k || forall i | 0 <= i < n :: init[i] == entries[i];
      forall i | 0 <= i < |entries| && IsLast(entries, i, k)
        ensures FromEntries(entries)[k] == entries[i].1
      {
        if i < n {
          assert IsLast(init, i, k);
        }
      }
    }
  }

  predicate IsLast<V>(entries: seq<(Str, V)>, i: nat, k: Str)
    requires i < |entries|
  {
    entries[i].0 == k && forall j | i < j < |entries| :: entries[j].0 != k
  }

  lemma {:induction false} LoadAllIsLast(saved: seq<(Str, SavedConversation)>, id: Str)
    ensures id in LoadAll(saved) <==> id in FromEntries(saved)
    ensures id in LoadAll(saved) ==> LoadAll(saved)[id] == LoadOne(FromEntries(saved)[id])
  {
    hide LoadOne;
    if saved != [] {
      LoadAllIsLast(saved[..|saved| - 1], id);
    }
  }

  /** What is loaded: each conversation from its last entry, field by field, its member cache likewise. */
  lemma LoadMeans(saved: seq<(Str, SavedConversation)>, i: nat, id: Str)
    requires i < |saved| && IsLast(saved, i, id)
    ensures
      var s := saved[i].1;
      && id in LoadAll(saved)
      && var c := LoadAll(saved)[id];
         && c.aiMode == s.aiMode && c.adminUserId == s.adminUserId
         && (match s.membershipOps case None => c.membershipOps == [] case Some(ops) => c.membershipOps == ops)
         && forall j | 0 <= j < |s.members| :: s.members[j].0 in c.members &&
              (IsLast(s.members, j, s.members[j].0) ==> c.members[s.members[j].0] == s.members[j].1)
  {
    LastEntryWins(saved, id);
    LoadAllIsLast(saved, id);
    var s := saved[i].1;
    forall j | 0 <= j < |s.members|
      ensures s.members[j].0 in FromEntries(s.members)
      ensures IsLast(s.members, j, s.members[j].0) ==> FromEntries(s.members)[s.members[j].0] == s.members[j].1
    {
      LastEntryWins(s.members, s.members[j].0);
    }
  }

  /** The entries of a map, in some order. */
  method Entries<V>(m: map<Str, V>) returns (entries: seq<(Str, V)>)
    ensures FromEntries(entries) == m
  {
    entries := [];
    var todo, done: map<Str, V> := m.Keys, map[];
    while todo != {}
      invariant todo <= m.Keys && done.Keys == m.Keys - todo
      invariant forall k <- done :: done[k] == m[k]
      invariant FromEntries(entries) == done
      decreases todo
    {
      var k :| k in todo;
      assert (entries + [(k, m[k])])[..|entries|] == entries;
      entries := entries + [(k, m[k])];
      todo, done := todo - {k}, done[k := m[k]];
    }
    assert done == m;
  }

  /** `toJSON`: loading what it writes gives the same conversations, op lists included. */
  method ToJson(conversations: map<Str, Conversation>) returns (saved: seq<(Str, SavedConversation)>)
    ensures LoadAll(saved) == conversations
  {
    saved := [];
    var todo, done: map<Str, Conversation> := conversations.Keys, map[];
    while todo != {}
      invariant todo <= conversations.Keys && done.Keys == conversations.Keys - todo
      invariant forall k <- done :: done[k] == conversations[k]
      invariant LoadAll(saved) == done
      decreases todo
    {
      var k :| k in todo;
      var c := conversations[k];
      var members := Entries(c.members);
      var one := SavedConversation(members, c.aiMode, c.adminUserId, Some(c.membershipOps));
      assert (saved + [(k, one)])[..|saved|] == saved;
      saved := saved + [(k, one)];
      todo, done := todo - {k}, done[k := c];
    }
    assert done == conversations;
  }

  /** `fromJSON`; a missing op list loads as the empty one. */
  method FromJson(saved: seq<(Str, SavedConversation)>) returns (conversations: map<Str, Conversation>)
    ensures conversations == LoadAll(saved)
  {
    conversations := map[];
    for i := 0 to |saved|
      invariant conversations == LoadAll(saved[..i])
    {
      var members: map<Str, CachedMember> := map[];
      var entries := saved[i].1.members;
      for j := 0 to |entries|
        invariant members == FromEntries(entries[..j])
      {
        assert entries[..j + 1][..j] == entries[..j];
        members := members[entries[j].0 := entries[j].1];
      }
      assert entries[..|entries|] == entries;
      var ops := if saved[i].1.membershipOps.Some? then saved[i].1.membershipOps.value else [];
      assert saved[..i + 1][..i] == saved[..i];
      conversations := conversations[saved[i].0 := Conversation(members, saved[i].1.aiMode, saved[i].1.adminUserId, ops)];
    }
    assert saved[..|saved|] == saved;
  }
}
