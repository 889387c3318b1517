/** Ops on their way from the author over the relay to receivers, with loss, duplication and reordering. */
module Propagation {
  import opened Common
  import opened ByteStrings
  import opened Ops
  import opened Decoding
  import opened Hashing
  import opened Chain
  import opened Log
  import opened Gate
  import opened ClientView

  // ----- The relay's store -----

  /** `storeOp` on one conversation: the next position only. */
  function Store(ops: seq<Str>, seqNo: nat, op: Str): seq<Str>
  {
    if seqNo == |ops| then ops + [op] else ops
  }

  class OpStore {
    var store: map<Str, seq<Str>>

    constructor ()
      ensures store == map[]
    {
      store := map[];
    }

    function At(id: Str): seq<Str>
      reads this
    {
      if id in store then store[id] else []
    }

    method StoreOp(id: Str, seqNo: nat, op: Str) returns (stored: bool)
      modifies this
      ensures store == old(store)[id := Store(old(At(id)), seqNo, op)]
      ensures stored <==> At(id) != old(At(id))
    {
      var arr := At(id);
      stored := false;
      if seqNo == |arr| {
        arr := arr + [op];
        stored := true;
      }
      store := store[id := arr];
    }

    method DrainOps(id: Str) returns (frames: seq<Frame>)
      ensures |frames| == |At(id)|
      ensures forall i | 0 <= i < |frames| :: frames[i] == Frame(i, At(id)[i])
    {
      frames := [];
      for i := 0 to |At(id)|
        invariant |frames| == i
        invariant forall j | 0 <= j < i :: frames[j] == Frame(j, At(id)[j])
      {
        frames := frames + [Frame(i, At(id)[i])];
      }
    }
  }

  // ----- The system of one conversation -----

  /** `air` holds every frame that the relay ever sent to receivers; arrival picks from it at will. */
  datatype Net = Net(
    author: seq<Op>,
    relay: seq<Str>,
    air: set<Frame>,
    lists: map<Str, seq<Str>>,
    pins: map<Str, Pin>)

  const START := Net([], [], {}, map[], map[])

  datatype Event =
    | Authors(op: Op)
    | RelayTakes(i: nat)
    | RelayDrains
    | RelayRestarts
    | Arrives(device: Str, frame: Frame)
    | TakesPin(device: Str, pin: Pin)

  function ListOf(n: Net, device: Str): seq<Str>
  {
    if device in n.lists then n.lists[device] else []
  }

  function PinOf(n: Net, device: Str): Option<Pin>
  {
    if device in n.pins then Some(n.pins[device]) else None
  }

  predicate AuthorOk(p: Platform, ops: seq<Op>)
  {
    ops == [] || (Verified(p, ops) && HeadOf(p, ops).Some? && AllWireable(p, ops))
  }

  /** Only the author extends the chain; the relay takes what the author sent; receivers what the relay sent. */
  predicate Enabled(p: Platform, n: Net, e: Event)
  {
    match e
    case Authors(op) => AuthorOk(p, n.author + [op])
    case RelayTakes(i) => i < |n.author|
    case RelayDrains => true
    case RelayRestarts => true
    case Arrives(_, frame) => frame in n.air
    case TakesPin(_, _) => true
  }

  /** The relay stores a frame if it is the next one, and passes it on in any case. */
  function Next(p: Platform, n: Net, e: Event): Net
    requires Enabled(p, n, e)
  {
    match e
    case Authors(op) => n.(author := n.author + [op])
    case RelayTakes(i) =>
      var text := Texts(p, n.author)[i];
      n.(relay := Store(n.relay, i, text), air := n.air + {Frame(i, text)})
    case RelayDrains => n.(air := n.air + set i | 0 <= i < |n.relay| :: Frame(i, n.relay[i]))
    case RelayRestarts => n.(relay := [])
    case Arrives(d, frame) => n.(lists := n.lists[d := Receive(p, PinOf(n, d), ListOf(n, d), frame.seqNo, frame.op)])
    case TakesPin(d, pin) => n.(pins := n.pins[d := pin])
  }

  predicate FromAuthor(p: Platform, author: seq<Op>, f: Frame)
  {
    f.seqNo < |author| && f.op == Texts(p, author)[f.seqNo]
  }

  ghost predicate Inv(p: Platform, n: Net)
  {
    && AuthorOk(p, n.author)
    && IsPrefix(n.relay, Texts(p, n.author))
    && (forall f <- n.air :: FromAuthor(p, n.author, f))
    && (forall d <- n.lists :: IsPrefix(n.lists[d], Texts(p, n.author)))
  }

  lemma TextsGrow(p: Platform, ops: seq<Op>, op: Op)
    ensures IsPrefix(Texts(p, ops), Texts(p, ops + [op]))
  {
    hide WireText;
    TextsPrefix(p, ops + [op], |ops|);
    assert (ops + [op])[..|ops|] == ops;
  }

  lemma AuthorsKeepsInv(p: Platform, n: Net, op: Op)
    requires Inv(p, n) && Enabled(p, n, Authors(op))
    ensures Inv(p, Next(p, n, Authors(op)))
  {
    hide AuthorOk, Texts;
    var before, after := Texts(p, n.author), Texts(p, n.author + [op]);
    TextsGrow(p, n.author, op);
    PrefixTransitive(n.relay, before, after);
    forall d <- n.lists
      ensures IsPrefix(n.lists[d], after)
    {
      PrefixTransitive(n.lists[d], before, after);
    }
    forall f <- n.air
      ensures FromAuthor(p, n.author + [op], f)
    {
      assert before[f.seqNo] == after[f.seqNo];
    }
  }

  lemma PrefixSnoc<T>(a: seq<T>, b: seq<T>)
    requires IsPrefix(a, b) && |a| < |b|
    ensures IsPrefix(a + [b[|a|]], b)
  {
  }

  lemma NextKeepsInv(p: Platform, n: Net, e: Event)
    requires Inv(p, n) && Enabled(p, n, e)
    ensures Inv(p, Next(p, n, e))
  {
    hide AuthorOk, Texts, Rebuild, DecodeText;
    match e
    case Authors(op) => AuthorsKeepsInv(p, n, op);
    case RelayTakes(i) =>
      if i == |n.relay| {
        PrefixSnoc(n.relay, Texts(p, n.author));
      }
    case RelayDrains =>
    case RelayRestarts =>
    case Arrives(d, frame) =>
      if frame.seqNo == |ListOf(n, d)| {
        PrefixSnoc(ListOf(n, d), Texts(p, n.author));
      }
    case TakesPin(d, pin) =>
  }

  predicate Possible(p: Platform, n: Net, events: seq<Event>)
    decreases |events|
  {
    events == [] || (Enabled(p, n, events[0]) && Possible(p, Next(p, n, events[0]), events[1..]))
  }

  function Run(p: Platform, n: Net, events: seq<Event>): Net
    requires Possible(p, n, events)
    decreases |events|
  {
    if events == [] then n else Run(p, Next(p, n, events[0]), events[1..])
  }

  lemma {:induction false} RunKeepsInv(p: Platform, n: Net, events: seq<Event>)
    requires Inv(p, n) && Possible(p, n, events)
    ensures Inv(p, Run(p, n, events))
    decreases |events|
  {
    hide Inv, Next;
    if events != [] {
      NextKeepsInv(p, n, events[0]);
      RunKeepsInv(p, Next(p, n, events[0]), events[1..]);
    }
  }

  /**
   * In every run with any loss, duplication, reordering, relay restarts and pins, each receiver's
   * list is the wire form of a prefix of the author's chain, and any log it gives is that prefix.
   */
  lemma ReceiversFollowAuthor(p: Platform, events: seq<Event>, d: Str)
    requires RepairsText(p.utf8) && Base64Inverts(p) && Possible(p, START, events)
    ensures
      var n := Run(p, START, events);
      var k := |ListOf(n, d)|;
      && k <= |n.author| && ListOf(n, d) == Texts(p, n.author[..k])
      && var log := Rebuild(p, PinOf(n, d), ListOf(n, d));
         log.Some? ==> log.value.ops == n.author[..k]
  {
    hide DecodeText, Wireable, OpOk;
    RunKeepsInv(p, START, events);
    var n := Run(p, START, events);
    var list := ListOf(n, d);
    TextsPrefix(p, n.author, |list|);
    TextsDecode(p, n.author[..|list|]);
    if Rebuild(p, PinOf(n, d), list).Some? {
      RebuildOk(p, PinOf(n, d), list);
    }
  }

  // ----- A complete drain -----

  /** The frames of the relay's store from position `i` on, received in order. */
  function DrainFrom(p: Platform, pin: Option<Pin>, list: seq<Str>, relay: seq<Str>, i: nat): seq<Str>
    requires i <= |relay|
    decreases |relay| - i
  {
    if i == |relay| then list
    else DrainFrom(p, pin, Receive(p, pin, list, i, relay[i]), relay, i + 1)
  }

  /** A pin that the author made: position and hashes of the author's own chain. */
  predicate AuthorsPin(p: Platform, author: seq<Op>, pin: Pin)
  {
    author != [] && pin.conversationId == author[0].body.conversationId && PinOk(p, pin, author)
  }

  /** What a drain needs to make progress on a list: no pin, or a list that already reaches it. */
  predicate CanProgress(pin: Option<Pin>, list: seq<Str>)
  {
    pin.None? || |list| >= pin.value.pinnedHead.seqNo
  }

  /** The next true op is kept exactly when the longer list reaches the pin. */
  lemma PrefixAdmitted(p: Platform, pin: Option<Pin>, author: seq<Op>, k: nat)
    requires AuthorOk(p, author) && 0 < k <= |author| && (pin.Some? ==> AuthorsPin(p, author, pin.value))
    ensures Admits(p, StartLog(pin, author[..k]), author[..k]) <==> (pin.None? || pin.value.pinnedHead.seqNo < k)
  {
    hide OpOk, AllWireable, HeadHash;
    VerifiedPrefix(p, author, k);
    VerifiedHashable(p, author, k - 1);
    assert author[..k][0] == author[0];
  }

  lemma TrueFrame(p: Platform, pin: Option<Pin>, author: seq<Op>, k: nat)
    requires RepairsText(p.utf8) && Base64Inverts(p) && AuthorOk(p, author) && k < |author|
    requires pin.Some? ==> AuthorsPin(p, author, pin.value)
    ensures var list := Texts(p, author[..k]);
            Receive(p, pin, list, k, Texts(p, author)[k]) ==
            if CanProgress(pin, list) then Texts(p, author[..k + 1]) else list
  {
    hide DecodeOp, Wireable, Admits, Verified, HeadOf, PinOk, RepairsText;
    var list, op := Texts(p, author[..k]), Texts(p, author)[k];
    TextsPrefix(p, author, k + 1);
    TextsPrefix(p, author, k);
    assert Texts(p, author[..k + 1]) == list + [op];
    TextsDecode(p, author[..k + 1]);
    DecodeAllSnoc(p, list, op);
    PrefixAdmitted(p, pin, author, k + 1);
  }

  lemma {:induction false} DrainFromResult(p: Platform, pin: Option<Pin>, author: seq<Op>, k: nat, r: nat, i: nat)
    requires RepairsText(p.utf8) && Base64Inverts(p) && AuthorOk(p, author)
    requires pin.Some? ==> AuthorsPin(p, author, pin.value)
    requires k <= |author| && i <= r <= |author| && (i <= k || !CanProgress(pin, Texts(p, author[..k])))
    ensures DrainFrom(p, pin, Texts(p, author[..k]), Texts(p, author[..r]), i) ==
            if CanProgress(pin, Texts(p, author[..k])) && k < r then Texts(p, author[..r]) else Texts(p, author[..k])
    decreases r - i
  {
    hide AuthorOk, AuthorsPin, RepairsText, Texts, Rebuild, DecodeText;
    if i < r {
      TextsPrefix(p, author, r);
      assert Texts(p, author[..r])[i] == Texts(p, author)[i];
      if i == k {
        TrueFrame(p, pin, author, k);
      }
      if i == k && CanProgress(pin, Texts(p, author[..k])) {
        DrainFromResult(p, pin, author, k + 1, r, i + 1);
      } else {
        DrainFromResult(p, pin, author, k, r, i + 1);
      }
    }
  }

  /**
   * A complete in-order drain leaves the longer of the receiver's and the relay's list, if the
   * receiver has no pin or its list already reaches the pin; otherwise it changes nothing, so a
   * joiner with a pin above position 0 and an empty list never catches up.
   */
  lemma DrainResult(p: Platform, pin: Option<Pin>, author: seq<Op>, list: seq<Str>, relay: seq<Str>)
    requires RepairsText(p.utf8) && Base64Inverts(p) && AuthorOk(p, author)
    requires pin.Some? ==> AuthorsPin(p, author, pin.value)
    requires IsPrefix(list, Texts(p, author)) && IsPrefix(relay, Texts(p, author))
    ensures CanProgress(pin, list) ==>
              DrainFrom(p, pin, list, relay, 0) == if |list| < |relay| then relay else list
    ensures !CanProgress(pin, list) ==> DrainFrom(p, pin, list, relay, 0) == list
  {
    hide AuthorOk, AuthorsPin, RepairsText, Texts, DrainFrom;
    TextsPrefix(p, author, |list|);
    TextsPrefix(p, author, |relay|);
    DrainFromResult(p, pin, author, |list|, |relay|, 0);
  }

  // ----- Convergence -----

  /** The author sends everything from position `i` on, in order. */
  function Sends(i: nat, n: nat): seq<Event>
    requires i <= n
    decreases n - i
  {
    if i == n then [] else [RelayTakes(i)] + Sends(i + 1, n)
  }

  /** In-order sends make the relay's list the author's, wherever the relay stood; nobody else changes. */
  lemma {:induction false} SendsFillRelay(p: Platform, n: Net, i: nat)
    requires Inv(p, n) && i <= |n.author| && (i <= |n.relay| || |n.relay| == |n.author|)
    ensures Possible(p, n, Sends(i, |n.author|))
    ensures var m := Run(p, n, Sends(i, |n.author|));
            m.relay == Texts(p, n.author) && m.author == n.author && m.lists == n.lists && m.pins == n.pins
    decreases |n.author| - i
  {
    hide AuthorOk, Texts;
    if i < |n.author| {
      var e := RelayTakes(i);
      NextKeepsInv(p, n, e);
      SendsFillRelay(p, Next(p, n, e), i + 1);
      assert Sends(i, |n.author|)[1..] == Sends(i + 1, |n.author|);
    } else {
      assert n.relay == Texts(p, n.author)[..|n.author|] == Texts(p, n.author);
    }
  }

  /** The frames of `texts` from position `i` on arrive at a device, in order. */
  function Arrivals(d: Str, texts: seq<Str>, i: nat): seq<Event>
    requires i <= |texts|
    decreases |texts| - i
  {
    if i == |texts| then [] else [Arrives(d, Frame(i, texts[i]))] + Arrivals(d, texts, i + 1)
  }

  lemma {:induction false} ArrivalsDrain(p: Platform, n: Net, d: Str, texts: seq<Str>, i: nat)
    requires i <= |texts| && forall j | i <= j < |texts| :: Frame(j, texts[j]) in n.air
    ensures Possible(p, n, Arrivals(d, texts, i))
    ensures ListOf(Run(p, n, Arrivals(d, texts, i)), d) == DrainFrom(p, PinOf(n, d), ListOf(n, d), texts, i)
    decreases |texts| - i
  {
    hide Receive;
    if i < |texts| {
      var e := Arrives(d, Frame(i, texts[i]));
      ArrivalsDrain(p, Next(p, n, e), d, texts, i + 1);
      assert Arrivals(d, texts, i)[1..] == Arrivals(d, texts, i + 1);
    }
  }

  lemma {:induction false} RunAppend(p: Platform, n: Net, a: seq<Event>, b: seq<Event>)
    requires Possible(p, n, a) && Possible(p, Run(p, n, a), b)
    ensures Possible(p, n, a + b) && Run(p, n, a + b) == Run(p, Run(p, n, a), b)
    decreases |a|
  {
    hide Next, Enabled;
    if a == [] {
      assert a + b == b;
    } else {
      assert (a + b)[0] == a[0] && (a + b)[1..] == a[1..] + b;
      RunAppend(p, Next(p, n, a[0]), a[1..], b);
    }
  }

  /** A drain puts every stored op under way. */
  lemma DrainSendsAll(p: Platform, n: Net)
    ensures Possible(p, n, [RelayDrains])
    ensures var m := Run(p, n, [RelayDrains]);
            && m.author == n.author && m.relay == n.relay && m.lists == n.lists && m.pins == n.pins
            && forall i | 0 <= i < |n.relay| :: Frame(i, n.relay[i]) in m.air
  {
    assert Possible(p, Next(p, n, RelayDrains), [RelayDrains][1..]);
    assert Run(p, n, [RelayDrains]) == Next(p, n, RelayDrains);
  }

  /** What brings a device up to date: the author sends in order, the relay drains, the frames arrive in order. */
  function Recovery(p: Platform, n: Net, d: Str): seq<Event>
  {
    Sends(0, |n.author|) + ([RelayDrains] + Arrivals(d, Texts(p, n.author), 0))
  }

  lemma RecoveryRuns(p: Platform, n: Net, d: Str)
    requires Inv(p, n)
    ensures Possible(p, n, Recovery(p, n, d))
    ensures ListOf(Run(p, n, Recovery(p, n, d)), d) == DrainFrom(p, PinOf(n, d), ListOf(n, d), Texts(p, n.author), 0)
  {
    hide Inv, Texts, Next, DrainFrom, Sends, Arrivals, Possible, Run;
    var texts := Texts(p, n.author);
    assert 0 <= |n.relay|;
    SendsFillRelay(p, n, 0);
    var n1 := Run(p, n, Sends(0, |n.author|));
    DrainSendsAll(p, n1);
    var n2 := Run(p, n1, [RelayDrains]);
    ArrivalsDrain(p, n2, d, texts, 0);
    RunAppend(p, n1, [RelayDrains], Arrivals(d, texts, 0));
    RunAppend(p, n, Sends(0, |n.author|), [RelayDrains] + Arrivals(d, texts, 0));
  }

  lemma StartInv(p: Platform)
    ensures Inv(p, START)
  {
  }

  /**
   * Convergence: after any run, whatever was lost, the recovery is possible and ends with the
   * author's whole wire chain at the device exactly if the device has no pin or its list reaches
   * the pin; otherwise the device's list stays as it was.
   */
  lemma Converges(p: Platform, events: seq<Event>, d: Str)
    requires RepairsText(p.utf8) && Base64Inverts(p) && Possible(p, START, events)
    requires var n := Run(p, START, events); PinOf(n, d).Some? ==> AuthorsPin(p, n.author, PinOf(n, d).value)
    ensures
      var n := Run(p, START, events);
      && Possible(p, n, Recovery(p, n, d))
      && var list := ListOf(Run(p, n, Recovery(p, n, d)), d);
         && (list == Texts(p, n.author) <==> CanProgress(PinOf(n, d), ListOf(n, d)))
         && (!CanProgress(PinOf(n, d), ListOf(n, d)) ==> list == ListOf(n, d))
  {
    hide RepairsText, Possible, Run, DrainFrom, Recovery, Texts, AuthorOk, HeadHash;
    var n := Run(p, START, events);
    StartInv(p);
    RunKeepsInv(p, START, events);
    RecoveryRuns(p, n, d);
    var texts := Texts(p, n.author);
    assert IsPrefix(texts, texts) && IsPrefix(ListOf(n, d), texts);
    DrainResult(p, PinOf(n, d), n.author, ListOf(n, d), texts);
    assert PinOf(n, d).Some? ==> PinOf(n, d).value.pinnedHead.seqNo < |texts|;
  }

  /** With a pin above position 0 an empty list stays empty, whatever frames arrive and in whatever order. */
  lemma {:induction false} PinnedJoinerStalls(p: Platform, arrivals: seq<Arrival>)
    requires forall a <- arrivals :: a.pin.Some? && a.pin.value.pinnedHead.seqNo > 0
    ensures ReceiveAll(p, [], arrivals) == []
    decreases |arrivals|
  {
    hide Verified, HeadOf, DecodeText;
    if arrivals != [] {
      var a := arrivals[0];
      assert a in arrivals && forall x <- arrivals[1..] :: x in arrivals;
      DecodeAllSnoc(p, [], a.frame.op);
      assert Receive(p, a.pin, [], a.frame.seqNo, a.frame.op) == [];
      PinnedJoinerStalls(p, arrivals[1..]);
    }
  }
}
