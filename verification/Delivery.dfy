/**
 * Live pushes interleaved with the connect-time drain of one recipient device. The server is
 * single-threaded, so a step is the code between two awaits. Membership is fixed: every envelope
 * here is addressed to this device in one of its active conversations.
 */
module Delivery {
  import opened Common

  /** An envelope with its global position and the sender connection it came from. */
  datatype Envelope = Envelope(seqNo: nat, sender: nat)

  /** A sender connection handles its frames one at a time: store, look the recipient up, push. */
  datatype Sending = Idle | Stored(env: Envelope) | Pushing(env: Envelope)

  /** The recipient's connection between its first frame and the end of the flush. */
  datatype Phase = Offline | Registered | Snapshotted | Drained | Live

  /**
   * `stored`: every envelope ever in the table, in table order. `unacked`: positions still there.
   * `pending`: result of the connect-time query. `resync`: result of a later `subscribe` query.
   * `sent`: frames on the recipient's socket.
   */
  datatype Relay = Relay(
    stored: seq<Envelope>,
    unacked: set<nat>,
    phase: Phase,
    draining: bool,
    pending: seq<Envelope>,
    liveBuffer: seq<Envelope>,
    resync: Option<seq<Envelope>>,
    sent: seq<Envelope>,
    senders: map<nat, Sending>)

  function SenderOf(r: Relay, c: nat): Sending
  {
    if c in r.senders then r.senders[c] else Idle
  }

  /** The mailbox query: rows still in the table, ascending. */
  function Query(stored: seq<Envelope>, unacked: set<nat>): seq<Envelope>
  {
    if stored == [] then []
    else
      var last := stored[|stored| - 1];
      Query(stored[..|stored| - 1], unacked) + (if last.seqNo in unacked then [last] else [])
  }

  /** `liveConn.deliver`. */
  function Deliver(r: Relay, env: Envelope): Relay
  {
    if r.draining then r.(liveBuffer := r.liveBuffer + [env]) else r.(sent := r.sent + [env])
  }

  datatype Event =
    | Stores(c: nat, seqNo: nat)
    | LooksUp(c: nat)
    | Pushes(c: nat)
    | Registers
    | Snapshots
    | Drains
    | Flushes
    | QueriesAgain
    | SendsAgain
    | TakesAck(env: Envelope)

  predicate Enabled(r: Relay, e: Event)
  {
    match e
    case Stores(c, n) => SenderOf(r, c).Idle? && forall x <- r.stored :: x.seqNo < n
    case LooksUp(c) => SenderOf(r, c).Stored?
    case Pushes(c) => SenderOf(r, c).Pushing?
    case Registers => r.phase.Offline?
    case Snapshots => r.phase.Registered?
    case Drains => r.phase.Snapshotted?
    case Flushes => r.phase.Drained?
    case QueriesAgain => r.phase.Live? && r.resync.None?
    case SendsAgain => r.phase.Live? && r.resync.Some?
    case TakesAck(env) => env in r.sent
  }

  function Next(r: Relay, e: Event): Relay
    requires Enabled(r, e)
  {
    match e
    case Stores(c, n) =>
      var env := Envelope(n, c);
      r.(stored := r.stored + [env], unacked := r.unacked + {n}, senders := r.senders[c := Stored(env)])
    case LooksUp(c) =>
      var env := SenderOf(r, c).env;
      r.(senders := r.senders[c := if r.phase.Offline? then Idle else Pushing(env)])
    case Pushes(c) =>
      Deliver(r, SenderOf(r, c).env).(senders := r.senders[c := Idle])
    case Registers => r.(phase := Registered, draining := true)
    case Snapshots => r.(phase := Snapshotted, pending := Query(r.stored, r.unacked))
    case Drains => r.(phase := Drained, sent := r.sent + r.pending, pending := [])
    case Flushes => r.(phase := Live, draining := false, sent := r.sent + r.liveBuffer, liveBuffer := [])
    case QueriesAgain => r.(resync := Some(Query(r.stored, r.unacked)))
    case SendsAgain => r.(sent := r.sent + r.resync.value, resync := None)
    case TakesAck(env) => r.(unacked := r.unacked - {env.seqNo})
  }

  // ----- Invariant -----

  predicate Ascending(xs: seq<Envelope>)
  {
    forall i, j | 0 <= i < j < |xs| :: xs[i].seqNo < xs[j].seqNo
  }

  predicate Earlier(a: Envelope, b: Envelope)
  {
    a.sender == b.sender && a.seqNo < b.seqNo
  }

  /** Whatever precedes `out[i]` on its sender's connection was sent before it. */
  predicate OrderedAt(stored: seq<Envelope>, out: seq<Envelope>, i: nat)
    requires i < |out|
  {
    forall a <- stored | Earlier(a, out[i]) :: a in out[..i]
  }

  /** First deliveries of each sender connection are in send order, without gaps. */
  predicate InOrder(stored: seq<Envelope>, out: seq<Envelope>)
  {
    forall i | 0 <= i < |out| :: OrderedAt(stored, out, i)
  }

  predicate PushPending(r: Relay, env: Envelope)
  {
    SenderOf(r, env.sender) == Stored(env) || SenderOf(r, env.sender) == Pushing(env)
  }

  /** What has been sent or is lined up to be sent. */
  function Planned(r: Relay): seq<Envelope>
  {
    r.sent + r.pending + r.liveBuffer
  }

  predicate Covered(r: Relay)
  {
    forall a <- r.stored :: a in Planned(r) || PushPending(r, a)
  }

  /** A sender's current envelope is stored and is its newest. */
  predicate SenderOk(r: Relay, c: nat)
  {
    var s := SenderOf(r, c);
    s.Idle? || (s.env in r.stored && s.env.sender == c && forall x <- r.stored | x.sender == c :: x.seqNo <= s.env.seqNo)
  }

  predicate Before(r: Relay)
  {
    r.phase.Offline? || r.phase.Registered?
  }

  ghost predicate Inv(r: Relay)
  {
    && Ascending(r.stored)
    && (forall c :: SenderOk(r, c))
    && (r.draining <==> r.phase.Registered? || r.phase.Snapshotted? || r.phase.Drained?)
    && (r.phase.Offline? ==> r.liveBuffer == [] && forall c :: !SenderOf(r, c).Pushing?)
    && (r.phase.Live? ==> r.liveBuffer == [])
    && (r.phase.Snapshotted? || r.pending == [])
    && (r.resync.Some? ==> forall x <- r.resync.value :: x in r.stored)
    && (forall x <- Planned(r) :: x in r.stored)
    && (Before(r) ==> r.sent == [] && forall x <- r.stored :: x.seqNo in r.unacked)
    && (!Before(r) ==> Covered(r) && InOrder(r.stored, Planned(r)))
  }

  // ----- Sequence facts -----

  lemma {:induction false} QueryAll(stored: seq<Envelope>, unacked: set<nat>)
    requires forall x <- stored :: x.seqNo in unacked
    ensures Query(stored, unacked) == stored
  {
    if stored != [] {
      QueryAll(stored[..|stored| - 1], unacked);
    }
  }

  lemma {:induction false} QueryWithin(stored: seq<Envelope>, unacked: set<nat>)
    ensures forall x <- Query(stored, unacked) :: x in stored
  {
    if stored != [] {
      QueryWithin(stored[..|stored| - 1], unacked);
    }
  }

  /** The whole table followed by anything is in order. */
  lemma TableFirstInOrder(stored: seq<Envelope>, more: seq<Envelope>)
    requires Ascending(stored)
    ensures InOrder(stored, stored + more)
  {
    var out := stored + more;
    forall i, a | 0 <= i < |out| && a in stored && Earlier(a, out[i])
      ensures a in out[..i]
    {
      var k :| 0 <= k < |stored| && stored[k] == a;
      assert i < |stored| ==> k < i;
      assert out[..i][k] == a;
    }
  }

  /** Appending an envelope keeps the order if everything before it on its connection is already there. */
  lemma SnocInOrder(stored: seq<Envelope>, out: seq<Envelope>, env: Envelope)
    requires InOrder(stored, out) && forall a <- stored | Earlier(a, env) :: a in out
    ensures InOrder(stored, out + [env])
  {
    forall i | 0 <= i < |out| + 1
      ensures OrderedAt(stored, out + [env], i)
    {
      if i < |out| {
        assert OrderedAt(stored, out, i);
        assert (out + [env])[..i] == out[..i];
      } else {
        assert (out + [env])[..i] == out;
      }
    }
  }

  /** Only a connection's newest envelope can be missing, so any stored envelope may come next. */
  lemma CoveredMayFollow(r: Relay, env: Envelope)
    requires (forall c :: SenderOk(r, c)) && Covered(r) && env in r.stored
    ensures forall a <- r.stored | Earlier(a, env) :: a in Planned(r)
  {
    assert SenderOk(r, env.sender);
  }

  lemma {:induction false} AppendInOrder(r: Relay, out: seq<Envelope>, more: seq<Envelope>)
    requires (forall c :: SenderOk(r, c)) && Covered(r) && (forall x <- more :: x in r.stored)
    requires InOrder(r.stored, out) && forall x <- Planned(r) :: x in out
    ensures InOrder(r.stored, out + more)
  {
    if more == [] {
      assert out + more == out;
    } else {
      var init, last := more[..|more| - 1], more[|more| - 1];
      AppendInOrder(r, out, init);
      CoveredMayFollow(r, last);
      SnocInOrder(r.stored, out + init, last);
      assert out + init + [last] == out + more;
    }
  }

  lemma GrownTableInOrder(stored: seq<Envelope>, out: seq<Envelope>, env: Envelope)
    requires InOrder(stored, out) && (forall x <- stored :: x.seqNo < env.seqNo) && forall x <- out :: x in stored
    ensures InOrder(stored + [env], out)
  {
    forall i | 0 <= i < |out|
      ensures OrderedAt(stored + [env], out, i)
    {
      assert OrderedAt(stored, out, i) && out[i] in out;
    }
  }

  // ----- Every step keeps the invariant -----

  lemma StoresKeepsInv(r: Relay, c: nat, n: nat)
    requires Inv(r) && Enabled(r, Stores(c, n))
    ensures Inv(Next(r, Stores(c, n)))
  {
    var r' := Next(r, Stores(c, n));
    var env := Envelope(n, c);
    assert Planned(r') == Planned(r);
    forall d
      ensures SenderOk(r', d) && (r'.phase.Offline? ==> !SenderOf(r', d).Pushing?)
    {
      assert SenderOk(r, d);
      assert r.phase.Offline? ==> !SenderOf(r, d).Pushing?;
    }
    if !Before(r) {
      GrownTableInOrder(r.stored, Planned(r), env);
      forall a <- r'.stored
        ensures a in Planned(r') || PushPending(r', a)
      {
        if a != env {
          assert a in r.stored;
        }
      }
    }
  }

  lemma LooksUpKeepsInv(r: Relay, c: nat)
    requires Inv(r) && Enabled(r, LooksUp(c))
    ensures Inv(Next(r, LooksUp(c)))
  {
    var r' := Next(r, LooksUp(c));
    assert Planned(r') == Planned(r);
    forall d
      ensures SenderOk(r', d) && (r'.phase.Offline? ==> !SenderOf(r', d).Pushing?)
    {
      assert SenderOk(r, d);
      assert r.phase.Offline? ==> !SenderOf(r, d).Pushing?;
    }
    assert SenderOk(r, c);
    assert !Before(r) ==> forall a <- r.stored :: PushPending(r, a) ==> PushPending(r', a);
  }

  lemma PushesKeepsInv(r: Relay, c: nat)
    requires Inv(r) && Enabled(r, Pushes(c))
    ensures Inv(Next(r, Pushes(c)))
  {
    var r' := Next(r, Pushes(c));
    var env := SenderOf(r, c).env;
    assert SenderOk(r, c) && !r.phase.Offline?;
    assert Planned(r') == Planned(r) + [env];
    forall d
      ensures SenderOk(r', d)
    {
      assert SenderOk(r, d);
    }
    if !Before(r) {
      CoveredMayFollow(r, env);
      SnocInOrder(r.stored, Planned(r), env);
      forall a <- r'.stored
        ensures a in Planned(r') || PushPending(r', a)
      {
        assert a in Planned(r) || PushPending(r, a);
      }
    }
  }

  lemma SnapshotsKeepsInv(r: Relay)
    requires Inv(r) && Enabled(r, Snapshots)
    ensures Inv(Next(r, Snapshots))
  {
    hide InOrder, Query, SenderOk;
    var r' := Next(r, Snapshots);
    QueryAll(r.stored, r.unacked);
    assert Planned(r') == r.stored + r.liveBuffer && Planned(r) == r.liveBuffer;
    TableFirstInOrder(r.stored, r.liveBuffer);
    SameSenders(r, r');
  }

  /** Steps that touch neither the table nor the senders keep what is said about the senders. */
  lemma SameSenders(r: Relay, r': Relay)
    requires Inv(r) && r'.stored == r.stored && r'.senders == r.senders
    ensures forall c :: SenderOk(r', c)
    ensures r.phase.Offline? ==> forall c :: !SenderOf(r', c).Pushing?
  {
    forall c
      ensures SenderOk(r', c) && (r.phase.Offline? ==> !SenderOf(r', c).Pushing?)
    {
      assert SenderOk(r, c);
      assert r.phase.Offline? ==> !SenderOf(r, c).Pushing?;
    }
  }

  lemma SendsAgainKeepsInv(r: Relay)
    requires Inv(r) && Enabled(r, SendsAgain)
    ensures Inv(Next(r, SendsAgain))
  {
    var r' := Next(r, SendsAgain);
    SameSenders(r, r');
    assert Planned(r') == Planned(r) + r.resync.value;
    AppendInOrder(r, Planned(r), r.resync.value);
    forall a <- r'.stored
      ensures a in Planned(r') || PushPending(r', a)
    {
      assert a in Planned(r) || PushPending(r, a);
    }
  }

  lemma NextKeepsInv(r: Relay, e: Event)
    requires Inv(r) && Enabled(r, e)
    ensures Inv(Next(r, e))
  {
    var r' := Next(r, e);
    match e
    case Stores(c, n) => StoresKeepsInv(r, c, n);
    case LooksUp(c) => LooksUpKeepsInv(r, c);
    case Pushes(c) => PushesKeepsInv(r, c);
    case Registers => SameSenders(r, r'); assert Planned(r') == Planned(r);
    case Snapshots => SnapshotsKeepsInv(r);
    case Drains => SameSenders(r, r'); QuietKeepsInv(r, r');
    case Flushes => SameSenders(r, r'); QuietKeepsInv(r, r');
    case QueriesAgain => SameSenders(r, r'); QueryWithin(r.stored, r.unacked); QuietKeepsInv(r, r');
    case SendsAgain => SendsAgainKeepsInv(r);
    case TakesAck(env) => SameSenders(r, r'); QuietKeepsInv(r, r');
  }

  lemma QuietKeepsInv(r: Relay, r': Relay)
    requires Inv(r) && !Before(r) && !Before(r')
    requires r'.stored == r.stored && r'.senders == r.senders && Planned(r') == Planned(r)
    ensures Covered(r') && InOrder(r'.stored, Planned(r'))
  {
    forall a <- r'.stored
      ensures a in Planned(r') || PushPending(r', a)
    {
      assert a in Planned(r) || PushPending(r, a);
    }
  }

  // ----- Runs -----

  /** Any unacked mail, an offline recipient, idle senders. */
  predicate Start(r: Relay)
  {
    && Ascending(r.stored) && (forall x <- r.stored :: x.seqNo in r.unacked)
    && r.phase.Offline? && !r.draining && r.pending == [] && r.liveBuffer == [] && r.resync.None? && r.sent == []
    && r.senders == map[]
  }

  predicate Possible(r: Relay, events: seq<Event>)
    decreases |events|
  {
    events == [] || (Enabled(r, events[0]) && Possible(Next(r, events[0]), events[1..]))
  }

  function Run(r: Relay, events: seq<Event>): Relay
    requires Possible(r, events)
    decreases |events|
  {
    if events == [] then r else Run(Next(r, events[0]), events[1..])
  }

  lemma {:induction false} RunKeepsInv(r: Relay, events: seq<Event>)
    requires Inv(r) && Possible(r, events)
    ensures Inv(Run(r, events))
    decreases |events|
  {
    hide Inv, Next;
    if events != [] {
      NextKeepsInv(r, events[0]);
      RunKeepsInv(Next(r, events[0]), events[1..]);
    }
  }

  lemma PrefixInOrder(stored: seq<Envelope>, out: seq<Envelope>, n: nat)
    requires InOrder(stored, out) && n <= |out|
    ensures InOrder(stored, out[..n])
  {
    forall i | 0 <= i < n
      ensures OrderedAt(stored, out[..n], i)
    {
      assert OrderedAt(stored, out, i) && out[..n][..i] == out[..i];
    }
  }

  /**
   * For every interleaving: on the recipient's socket the first deliveries of each sender
   * connection are in send order without gaps, and once the flush is done every stored envelope
   * has been sent or its push is still to come.
   */
  lemma ConnectTimeDelivery(r: Relay, events: seq<Event>)
    requires Start(r) && Possible(r, events)
    ensures
      var last := Run(r, events);
      && InOrder(last.stored, last.sent)
      && (last.phase.Live? ==> forall a <- last.stored :: a in last.sent || PushPending(last, a))
  {
    RunKeepsInv(r, events);
    var last := Run(r, events);
    if !Before(last) {
      assert last.sent == Planned(last)[..|last.sent|];
      PrefixInOrder(last.stored, Planned(last), |last.sent|);
    }
  }

  /** The query finds exactly the rows still in the table. */
  lemma {:induction false} QueryExact(stored: seq<Envelope>, unacked: set<nat>, x: Envelope)
    ensures x in Query(stored, unacked) <==> x in stored && x.seqNo in unacked
  {
    if stored != [] {
      QueryExact(stored[..|stored| - 1], unacked, x);
      assert stored == stored[..|stored| - 1] + [stored[|stored| - 1]];
    }
  }

  lemma {:induction false} ResyncWaits(r: Relay, events: seq<Event>)
    requires Possible(r, events) && r.resync.Some? && SendsAgain !in events
    ensures Run(r, events).resync == r.resync
    decreases |events|
  {
    hide Query, SenderOf;
    if events != [] {
      assert events[0] in events && forall e <- events[1..] :: e in events;
      ResyncWaits(Next(r, events[0]), events[1..]);
    }
  }

  /** A `subscribe` sends everything again that was unacked when it queried, whatever happens before it sends. */
  lemma ResyncSendsUnacked(r: Relay, events: seq<Event>, x: Envelope)
    requires Enabled(r, QueriesAgain) && Possible(Next(r, QueriesAgain), events) && SendsAgain !in events
    requires Enabled(Run(Next(r, QueriesAgain), events), SendsAgain)
    requires x in r.stored && x.seqNo in r.unacked
    ensures var r1 := Run(Next(r, QueriesAgain), events);
            x in Next(r1, SendsAgain).sent[|r1.sent|..]
  {
    hide Query, Run;
    QueryExact(r.stored, r.unacked, x);
    ResyncWaits(Next(r, QueriesAgain), events);
  }
}
