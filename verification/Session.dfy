/** The promise-chain mutex over the session record. */
module Session {
  import opened Common

  /** A read-modify-write of the record; `None` is an operation that throws and saves nothing. */
  type Job<!R> = R -> Option<R>

  datatype Status<R> = Waiting | Holding(read: R) | Settled

  /** A call of `runExclusive`: its operation and the promise it was chained on, if any. */
  datatype Call<!R> = Call(job: Job<R>, after: Option<nat>, status: Status<R>)

  /** `tail` is the call whose settling `storeTail` stands for. */
  datatype Manager<!R> = Manager(record: R, calls: seq<Call<R>>, tail: Option<nat>)

  datatype Event<!R> = Calls(job: Job<R>) | Reads(i: nat) | Saves(i: nat)

  /** A call may read once the promise it is chained on has settled. */
  predicate Enabled<R>(m: Manager<R>, e: Event<R>)
  {
    match e
    case Calls(_) => true
    case Reads(i) =>
      && i < |m.calls| && m.calls[i].status.Waiting?
      && (m.calls[i].after.Some? ==> m.calls[i].after.value < |m.calls| && m.calls[m.calls[i].after.value].status.Settled?)
    case Saves(i) => i < |m.calls| && m.calls[i].status.Holding?
  }

  /** The save uses the record as it was read; a throw settles the call without a save. */
  function Next<R>(m: Manager<R>, e: Event<R>): Manager<R>
    requires Enabled(m, e)
  {
    match e
    case Calls(job) => m.(calls := m.calls + [Call(job, m.tail, Waiting)], tail := Some(|m.calls|))
    case Reads(i) => m.(calls := m.calls[i := m.calls[i].(status := Holding(m.record))])
    case Saves(i) =>
      var r := m.calls[i].job(m.calls[i].status.read);
      m.(record := if r.Some? then r.value else m.record, calls := m.calls[i := m.calls[i].(status := Settled)])
  }

  /** The record after an operation; one that throws leaves it as it was. */
  function Apply<R>(r: R, job: Job<R>): R
  {
    var r' := job(r);
    if r'.Some? then r'.value else r
  }

  /** The first `k` operations applied one after the other. */
  function InOrder<R>(init: R, jobs: seq<Job<R>>, k: nat): R
    requires k <= |jobs|
  {
    if k == 0 then init else Apply(InOrder(init, jobs, k - 1), jobs[k - 1])
  }

  /** `jobs` were called; `k` of them have settled; the next may hold the current record; the rest wait. */
  ghost predicate Inv<R>(init: R, jobs: seq<Job<R>>, m: Manager<R>, k: nat)
  {
    && k <= |jobs| == |m.calls|
    && (forall i | 0 <= i < |jobs| :: m.calls[i].job == jobs[i])
    && m.tail == (if m.calls == [] then None else Some(|m.calls| - 1))
    && (forall i | 0 <= i < |m.calls| :: m.calls[i].after == if i == 0 then None else Some(i - 1))
    && (forall i | 0 <= i < k :: m.calls[i].status.Settled?)
    && (forall i | k < i < |m.calls| :: m.calls[i].status.Waiting?)
    && (k < |m.calls| ==> m.calls[k].status.Waiting? || m.calls[k].status == Holding(m.record))
    && m.record == InOrder(init, jobs, k)
  }

  lemma {:induction false} InOrderGrows<R>(init: R, jobs: seq<Job<R>>, job: Job<R>, k: nat)
    requires k <= |jobs|
    ensures InOrder(init, jobs + [job], k) == InOrder(init, jobs, k)
  {
    if k > 0 {
      InOrderGrows(init, jobs, job, k - 1);
    }
  }

  /** The number of settled calls after an event. */
  function SettledAfter<R>(k: nat, e: Event<R>): nat
  {
    if e.Saves? then k + 1 else k
  }

  /** The operations called after an event. */
  function JobsAfter<R>(jobs: seq<Job<R>>, e: Event<R>): seq<Job<R>>
  {
    if e.Calls? then jobs + [e.job] else jobs
  }

  lemma CallsKeepsInv<R>(init: R, jobs: seq<Job<R>>, m: Manager<R>, k: nat, job: Job<R>)
    requires Inv(init, jobs, m, k)
    ensures Inv(init, jobs + [job], Next(m, Calls(job)), k)
  {
    InOrderGrows(init, jobs, job, k);
  }

  lemma ReadsKeepsInv<R>(init: R, jobs: seq<Job<R>>, m: Manager<R>, k: nat, i: nat)
    requires Inv(init, jobs, m, k) && Enabled(m, Reads(i))
    ensures Inv(init, jobs, Next(m, Reads(i)), k)
  {
    assert i == k;
  }

  lemma SavesKeepsInv<R>(init: R, jobs: seq<Job<R>>, m: Manager<R>, k: nat, i: nat)
    requires Inv(init, jobs, m, k) && Enabled(m, Saves(i))
    ensures Inv(init, jobs, Next(m, Saves(i)), k + 1)
  {
    assert i == k;
  }

  lemma NextKeepsInv<R>(init: R, jobs: seq<Job<R>>, m: Manager<R>, k: nat, e: Event<R>)
    requires Inv(init, jobs, m, k) && Enabled(m, e)
    ensures Inv(init, JobsAfter(jobs, e), Next(m, e), SettledAfter(k, e))
  {
    hide Inv;
    match e
    case Calls(job) => CallsKeepsInv(init, jobs, m, k, job);
    case Reads(i) => ReadsKeepsInv(init, jobs, m, k, i);
    case Saves(i) => SavesKeepsInv(init, jobs, m, k, i);
  }

  predicate Possible<R>(m: Manager<R>, events: seq<Event<R>>)
    decreases |events|
  {
    events == [] || (Enabled(m, events[0]) && Possible(Next(m, events[0]), events[1..]))
  }

  function Run<R>(m: Manager<R>, events: seq<Event<R>>): Manager<R>
    requires Possible(m, events)
    decreases |events|
  {
    if events == [] then m else Run(Next(m, events[0]), events[1..])
  }

  function CountSaves<R>(events: seq<Event<R>>): nat
  {
    if events == [] then 0 else SettledAfter(0, events[0]) + CountSaves(events[1..])
  }

  /** The operations that were called, in order. */
  function JobsOf<R>(events: seq<Event<R>>): seq<Job<R>>
  {
    if events == [] then [] else JobsAfter(JobsOf(events[..|events| - 1]), events[|events| - 1])
  }

  lemma {:induction false} JobsOfCons<R>(events: seq<Event<R>>)
    requires events != []
    ensures JobsOf(events) == JobsAfter([], events[0]) + JobsOf(events[1..])
  {
    var n := |events| - 1;
    if n > 0 {
      JobsOfCons(events[..n]);
      assert events[..n][1..] == events[1..][..n - 1];
    }
  }

  lemma {:induction false} RunKeepsInv<R>(init: R, jobs: seq<Job<R>>, m: Manager<R>, k: nat, events: seq<Event<R>>)
    requires Inv(init, jobs, m, k) && Possible(m, events)
    ensures Inv(init, jobs + JobsOf(events), Run(m, events), k + CountSaves(events))
    decreases |events|
  {
    hide Inv, Next;
    if events == [] {
      assert jobs + JobsOf(events) == jobs;
    } else {
      var e := events[0];
      NextKeepsInv(init, jobs, m, k, e);
      RunKeepsInv(init, JobsAfter(jobs, e), Next(m, e), SettledAfter(k, e), events[1..]);
      JobsOfCons(events);
      assert jobs + JobsOf(events) == JobsAfter(jobs, e) + JobsOf(events[1..]);
    }
  }

  /** Every run from an idle manager. */
  lemma RunInv<R>(init: R, events: seq<Event<R>>)
    requires Possible(Manager(init, [], None), events)
    ensures Inv(init, JobsOf(events), Run(Manager(init, [], None), events), CountSaves(events))
  {
    hide Inv;
    assert Inv(init, [], Manager(init, [], None), 0) by { Idle(init); }
    RunKeepsInv(init, [], Manager(init, [], None), 0, events);
    assert [] + JobsOf(events) == JobsOf(events);
  }

  lemma Idle<R>(init: R)
    ensures Inv(init, [], Manager(init, [], None), 0)
  {
  }

  /**
   * Over every interleaving of calls, reads and saves: at most one call is between its read and
   * its save, what it read is still the current record, and the record is the first operations
   * called, as many as have settled, applied in call order, throwing ones included.
   */
  lemma Serialised<R>(init: R, events: seq<Event<R>>, i: nat, j: nat)
    requires Possible(Manager(init, [], None), events)
    ensures
      var m := Run(Manager(init, [], None), events);
      && CountSaves(events) <= |JobsOf(events)| == |m.calls|
      && m.record == InOrder(init, JobsOf(events), CountSaves(events))
      && (i < |m.calls| && m.calls[i].status.Holding? ==> m.calls[i].status.read == m.record && i == CountSaves(events))
      && (i < |m.calls| && j < |m.calls| && m.calls[i].status.Holding? && m.calls[j].status.Holding? ==> i == j)
  {
    RunInv(init, events);
  }

  /**
   * No update is lost: when call `i` saves, whatever ran since it read, the record becomes what the
   * operation called as number `i` makes of the record before the save.
   */
  lemma SaveBuildsOnRecord<R>(init: R, events: seq<Event<R>>, i: nat)
    requires Possible(Manager(init, [], None), events) && Enabled(Run(Manager(init, [], None), events), Saves(i))
    ensures
      var m := Run(Manager(init, [], None), events);
      && i == CountSaves(events) < |JobsOf(events)|
      && Next(m, Saves(i)).record == match JobsOf(events)[i](m.record) case Some(r) => r case None => m.record
  {
    RunInv(init, events);
  }

  /** No call blocks those behind it: unless every call has settled, the first unsettled one can go on. */
  lemma NeverStuck<R>(init: R, events: seq<Event<R>>)
    requires Possible(Manager(init, [], None), events)
    ensures
      var m := Run(Manager(init, [], None), events);
      var k := CountSaves(events);
      if k == |m.calls| then forall c <- m.calls :: c.status.Settled?
      else Enabled(m, Reads(k)) || Enabled(m, Saves(k))
  {
    RunInv(init, events);
  }
}
