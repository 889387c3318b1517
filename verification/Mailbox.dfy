/** The relay's mailbox table, and what it guarantees together with the clients. */
module Mailbox {
  import opened Common
  import opened ByteStrings
  import opened Ops
  import opened Chain
  import opened Log
  import opened Client

  datatype Device = Device(userId: Str, deviceId: int)

  datatype Row = Row(conversationId: Str, recipient: Device, sender: Device, kind: int, ciphertext: Bytes)

  type Table = map<nat, Row>

  /** `ackEnvelopes` deletes the row of that device, conversation and position, if there is one. */
  function Acked(table: Table, d: Device, conversationId: Str, n: nat): Table
  {
    if n in table && table[n].recipient == d && table[n].conversationId == conversationId then table - {n} else table
  }

  /** An ack removes no row but the device's own at exactly that position. */
  lemma AckIsExact(table: Table, d: Device, conversationId: Str, n: nat, m: nat)
    ensures m in table && m !in Acked(table, d, conversationId, n) <==>
            m == n && m in table && table[m].recipient == d && table[m].conversationId == conversationId
    ensures m in Acked(table, d, conversationId, n) ==> m in table && Acked(table, d, conversationId, n)[m] == table[m]
  {
  }

  class MailboxStore {
    var rows: Table
    var nextSeq: nat

    ghost predicate Valid()
      reads this
    {
      forall n <- rows :: n < nextSeq
    }

    constructor ()
      ensures Valid() && rows == map[] && nextSeq == 0
    {
      rows, nextSeq := map[], 0;
    }

    method Enqueue(row: Row) returns (seqNo: nat)
      requires Valid()
      modifies this
      ensures Valid() && seqNo == old(nextSeq) && nextSeq == old(nextSeq) + 1
      ensures seqNo !in old(rows) && rows == old(rows)[seqNo := row]
    {
      seqNo := nextSeq;
      rows := rows[seqNo := row];
      nextSeq := nextSeq + 1;
    }

    /** `drainPendingEnvelopes`: exactly the device's rows in scope, in ascending position. */
    method Drain(d: Device, scope: seq<Str>, since: Option<nat>) returns (out: seq<nat>)
      requires Valid()
      ensures forall n: nat :: n in out <==>
                n in rows && rows[n].recipient == d && rows[n].conversationId in scope && (since.Some? ==> n > since.value)
      ensures forall i, j | 0 <= i < j < |out| :: out[i] < out[j]
    {
      out := [];
      if |scope| == 0 {
        return;
      }
      for n := 0 to nextSeq
        invariant forall m: nat :: m in out <==>
                    m < n && m in rows && rows[m].recipient == d && rows[m].conversationId in scope && (since.Some? ==> m > since.value)
        invariant forall i, j | 0 <= i < j < |out| :: out[i] < out[j]
      {
        if n in rows && rows[n].recipient == d && rows[n].conversationId in scope && (since.None? || n > since.value) {
          assert forall i | 0 <= i < |out| :: out[i] in out;
          out := out + [n];
        }
      }
    }

    method Ack(d: Device, conversationId: Str, n: nat) returns (count: nat)
      requires Valid()
      modifies this`rows
      ensures Valid() && rows == Acked(old(rows), d, conversationId, n)
      ensures count == |old(rows)| - |rows|
    {
      if n in rows && rows[n].recipient == d && rows[n].conversationId == conversationId {
        assert rows.Keys == (rows - {n}).Keys + {n};
        rows := rows - {n};
        return 1;
      }
      return 0;
    }
  }

  // ----- Mailbox and clients together -----

  /**
   * `stored` is every row ever stored, `table` what is left of it, `wire` the positions ever
   * delivered, `acks` the acks ever sent. A delivered frame or a sent ack may be handled any number
   * of times and in any order, or never.
   */
  datatype System = System(
    stored: Table,
    table: Table,
    wire: set<nat>,
    acks: set<(Device, Str, nat)>,
    fates: map<nat, Fate>,
    seen: map<Device, set<Str>>,
    surfaced: map<Device, seq<Str>>)

  const EMPTY_SYSTEM := System(map[], map[], {}, {}, map[], map[], map[])

  datatype Event =
    | Stores(n: nat, row: Row)
    | Delivers(n: nat)
    | Handles(n: nat, log: Option<LogState>, content: Opened, linked: bool)
    | TakesAck(ack: (Device, Str, nat))

  predicate Enabled(s: System, e: Event)
  {
    match e
    case Stores(n, _) => n !in s.stored
    case Delivers(n) => n in s.table
    case Handles(n, _, _, _) => n in s.wire && n in s.stored
    case TakesAck(ack) => ack in s.acks
  }

  function SeenBy(s: System, d: Device): set<Str>
  {
    if d in s.seen then s.seen[d] else {}
  }

  function SurfacedTo(s: System, d: Device): seq<Str>
  {
    if d in s.surfaced then s.surfaced[d] else []
  }

  /** The client of the row's recipient handles a delivered envelope. */
  function Handle(p: Platform, s: System, n: nat, log: Option<LogState>, content: Opened, linked: bool): System
    requires n in s.stored
  {
    var row := s.stored[n];
    var d := row.recipient;
    var fate := FateOf(p, log, SeenBy(s, d), row.sender.userId, content);
    if fate.KeptBack? then s
    else
      var s1 := s.(fates := s.fates[n := fate],
                   acks := if linked then s.acks + {(d, row.conversationId, n)} else s.acks);
      if fate.Surfaced?
      then s1.(seen := s.seen[d := SeenBy(s, d) + {content.msgId}],
               surfaced := s.surfaced[d := SurfacedTo(s, d) + [content.msgId]])
      else s1
  }

  function Next(p: Platform, s: System, e: Event): System
    requires Enabled(s, e)
  {
    match e
    case Stores(n, row) => s.(stored := s.stored[n := row], table := s.table[n := row])
    case Delivers(n) => s.(wire := s.wire + {n})
    case Handles(n, log, content, linked) => Handle(p, s, n, log, content, linked)
    case TakesAck(ack) => s.(table := Acked(s.table, ack.0, ack.1, ack.2))
  }

  predicate Distinct(xs: seq<Str>)
  {
    forall i, j | 0 <= i < j < |xs| :: xs[i] != xs[j]
  }

  predicate OnceEach(s: System, d: Device)
  {
    Distinct(SurfacedTo(s, d)) && forall x <- SurfacedTo(s, d) :: x in SeenBy(s, d)
  }

  /** The table is what is left of the stored rows, and whatever is gone or acked has met its fate. */
  predicate Ledger(s: System)
  {
    && (forall n <- s.table :: n in s.stored && s.table[n] == s.stored[n])
    && (forall n <- s.stored :: n in s.table || n in s.fates)
    && (forall a <- s.acks :: a.2 in s.fates && a.2 in s.stored && s.stored[a.2].recipient == a.0)
    && (forall n <- s.fates :: n in s.stored && !s.fates[n].KeptBack?)
  }

  ghost predicate Inv(s: System)
  {
    Ledger(s) && forall d :: OnceEach(s, d)
  }

  lemma HandleKeepsLedger(p: Platform, s: System, n: nat, log: Option<LogState>, content: Opened, linked: bool)
    requires n in s.stored && Ledger(s)
    ensures Ledger(Handle(p, s, n, log, content, linked))
  {
    hide FateOf, SeenBy, SurfacedTo;
  }

  lemma HandleKeepsOnce(p: Platform, s: System, n: nat, log: Option<LogState>, content: Opened, linked: bool, d: Device)
    requires n in s.stored && OnceEach(s, d)
    ensures OnceEach(Handle(p, s, n, log, content, linked), d)
  {
    hide Passes;
    var row := s.stored[n];
    if row.recipient == d && FateOf(p, log, SeenBy(s, d), row.sender.userId, content).Surfaced? {
      assert content.msgId !in SeenBy(s, d);
      var xs := SurfacedTo(s, d);
      assert forall i | 0 <= i < |xs| :: xs[i] in SeenBy(s, d);
    }
  }

  lemma NextKeepsInv(p: Platform, s: System, e: Event)
    requires Inv(s) && Enabled(s, e)
    ensures Inv(Next(p, s, e))
  {
    hide FateOf;
    var s' := Next(p, s, e);
    if e.Handles? {
      HandleKeepsLedger(p, s, e.n, e.log, e.content, e.linked);
    }
    forall d: Device
      ensures OnceEach(s', d)
    {
      assert OnceEach(s, d);
      if e.Handles? {
        HandleKeepsOnce(p, s, e.n, e.log, e.content, e.linked, d);
      }
    }
  }

  predicate Possible(p: Platform, s: System, events: seq<Event>)
    decreases |events|
  {
    events == [] || (Enabled(s, events[0]) && Possible(p, Next(p, s, events[0]), events[1..]))
  }

  function Run(p: Platform, s: System, events: seq<Event>): System
    requires Possible(p, s, events)
    decreases |events|
  {
    if events == [] then s else Run(p, Next(p, s, events[0]), events[1..])
  }

  lemma {:induction false} RunKeepsInv(p: Platform, s: System, events: seq<Event>)
    requires Inv(s) && Possible(p, s, events)
    ensures Inv(Run(p, s, events))
    decreases |events|
  {
    hide Inv, Next;
    if events != [] {
      NextKeepsInv(p, s, events[0]);
      RunKeepsInv(p, Next(p, s, events[0]), events[1..]);
    }
  }

  /**
   * In every run, a stored row that is gone from the table met one of the four acknowledged fates
   * at its client, and every client surfaced each message id at most once.
   */
  lemma NothingLostNothingTwice(p: Platform, events: seq<Event>)
    requires Possible(p, EMPTY_SYSTEM, events)
    ensures
      var s := Run(p, EMPTY_SYSTEM, events);
      && (forall n <- s.stored | n !in s.table :: n in s.fates && s.fates[n] in {Malformed, Refused, Duplicate, Surfaced})
      && (forall n <- s.table :: n in s.stored && s.table[n] == s.stored[n])
      && (forall d: Device :: Distinct(SurfacedTo(s, d)))
  {
    RunKeepsInv(p, EMPTY_SYSTEM, events);
    var s := Run(p, EMPTY_SYSTEM, events);
    forall d: Device
      ensures Distinct(SurfacedTo(s, d))
    {
      assert OnceEach(s, d);
    }
  }

  /**
   * A stored row waits unchanged in every run that does not take the ack of exactly its recipient,
   * conversation and position, whatever else is stored, delivered, handled and acked.
   */
  lemma {:induction false} UnackedRowWaits(p: Platform, s: System, events: seq<Event>, n: nat)
    requires Inv(s) && Possible(p, s, events) && n in s.table
    requires TakesAck((s.table[n].recipient, s.table[n].conversationId, n)) !in events
    ensures n in Run(p, s, events).table && Run(p, s, events).table[n] == s.table[n]
    decreases |events|
  {
    hide Next, Inv;
    if events != [] {
      assert events[0] in events && forall e <- events[1..] :: e in events;
      NextKeepsInv(p, s, events[0]);
      StepKeepsRow(p, s, events[0], n);
      UnackedRowWaits(p, Next(p, s, events[0]), events[1..], n);
    }
  }

  lemma StepKeepsRow(p: Platform, s: System, e: Event, n: nat)
    requires Inv(s) && Enabled(s, e) && n in s.table
    requires e != TakesAck((s.table[n].recipient, s.table[n].conversationId, n))
    ensures n in Next(p, s, e).table && Next(p, s, e).table[n] == s.table[n]
  {
    hide FateOf, OnceEach;
  }

  /** Once a linked client has handled a readable envelope, its ack can be taken and deletes just that row. */
  lemma HandledRowCanGo(p: Platform, s: System, n: nat, log: Option<LogState>, content: Opened)
    requires Inv(s) && n in s.table && n in s.wire && !content.Undecryptable?
    ensures
      var e := Handles(n, log, content, true);
      Enabled(s, e) &&
      var s1 := Next(p, s, e);
      var ack := TakesAck((s.table[n].recipient, s.table[n].conversationId, n));
      Enabled(s1, ack) && Next(p, s1, ack).table == s.table - {n}
  {
    hide Passes, OnceEach;
  }

  /** A first readable message that the gate lets in is surfaced to its recipient, then and there. */
  lemma FirstMessageSurfaces(p: Platform, s: System, n: nat, log: Option<LogState>, msgId: Str, cited: Option<Head>, linked: bool)
    requires n in s.stored && Passes(p, log, s.stored[n].sender.userId, cited)
    ensures
      var d := s.stored[n].recipient;
      var s1 := Handle(p, s, n, log, Message(msgId, cited), linked);
      && SurfacedTo(s1, d) == SurfacedTo(s, d) + (if msgId in SeenBy(s, d) then [] else [msgId])
      && msgId in SeenBy(s1, d)
      && forall other: Device | other != d :: SurfacedTo(s1, other) == SurfacedTo(s, other)
  {
    hide Passes;
  }
}
