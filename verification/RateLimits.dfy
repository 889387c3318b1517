/** The per-socket frame limiter and the per-address invite-code lockout. */
module RateLimits {
  import opened Common
  import opened ByteStrings

  // ----- Frame limiter -----

  const MAX_FRAMES: nat := 200
  const WINDOW: nat := 10_000

  datatype Limiter = Limiter(windowStart: int, frames: nat)

  /** A frame at time `now`: the new state. It passes iff the counter stays within the maximum. */
  function OnFrame(s: Limiter, now: int): Limiter
  {
    if now - s.windowStart > WINDOW then Limiter(now, 1) else s.(frames := s.frames + 1)
  }

  predicate PassedFrame(s: Limiter)
  {
    s.frames <= MAX_FRAMES
  }

  class FrameLimiter {
    var windowStart: int
    var framesInWindow: nat

    ghost function State(): Limiter
      reads this
    {
      Limiter(windowStart, framesInWindow)
    }

    constructor (now: int)
      ensures State() == Limiter(now, 0)
    {
      windowStart, framesInWindow := now, 0;
    }

    method HandleFrame(now: int) returns (passed: bool)
      modifies this
      ensures State() == OnFrame(old(State()), now) && (passed <==> PassedFrame(State()))
    {
      if now - windowStart > WINDOW {
        windowStart := now;
        framesInWindow := 0;
      }
      framesInWindow := framesInWindow + 1;
      return framesInWindow <= MAX_FRAMES;
    }
  }

  predicate NonDecreasing(from: int, times: seq<int>)
  {
    (times != [] ==> from <= times[0]) && forall i | 0 < i < |times| :: times[i - 1] <= times[i]
  }

  /** How many frames with a time in [t, t + WINDOW] pass. */
  function PassedIn(s: Limiter, times: seq<int>, t: int): nat
    decreases |times|
  {
    if times == [] then 0
    else
      var s1 := OnFrame(s, times[0]);
      (if PassedFrame(s1) && t <= times[0] <= t + WINDOW then 1 else 0) + PassedIn(s1, times[1..], t)
  }

  /** How many passed frames of the interval the state allows for: at most two windows meet it. */
  predicate Accounted(s: Limiter, now: int, t: int, used: nat)
  {
    var here := if s.frames < MAX_FRAMES then s.frames else MAX_FRAMES;
    && (used > 0 ==> t <= now)
    && (if s.windowStart < t then used <= here
        else if s.windowStart <= t + WINDOW then used <= MAX_FRAMES + here
        else used <= 2 * MAX_FRAMES)
  }

  lemma {:induction false} FrameInduction(s: Limiter, now: int, times: seq<int>, t: int, used: nat)
    requires s.windowStart <= now && NonDecreasing(now, times) && Accounted(s, now, t, used)
    ensures used + PassedIn(s, times, t) <= 2 * MAX_FRAMES
    decreases |times|
  {
    if times != [] {
      var s1 := OnFrame(s, times[0]);
      var counted := PassedFrame(s1) && t <= times[0] <= t + WINDOW;
      FrameInduction(s1, times[0], times[1..], t, if counted then used + 1 else used);
    }
  }

  /** Any closed interval of ten seconds passes at most twice the maximum. */
  lemma FramesBounded(start: int, times: seq<int>, t: int)
    requires NonDecreasing(start, times)
    ensures PassedIn(Limiter(start, 0), times, t) <= 2 * MAX_FRAMES
  {
    FrameInduction(Limiter(start, 0), start, times, t, 0);
  }

  /** `n` frames, all within ten seconds of the window's start. */
  predicate WithinWindow(start: int, times: seq<int>)
  {
    forall i | 0 <= i < |times| :: times[i] - start <= 10_000
  }

  function AfterFrames(s: Limiter, times: seq<int>): Limiter
  {
    if times == [] then s else OnFrame(AfterFrames(s, times[..|times| - 1]), times[|times| - 1])
  }

  lemma {:induction false} WindowCounts(s: Limiter, times: seq<int>)
    requires WithinWindow(s.windowStart, times)
    ensures AfterFrames(s, times) == Limiter(s.windowStart, s.frames + |times|)
  {
    if times != [] {
      WindowCounts(s, times[..|times| - 1]);
    }
  }

  /** Within ten seconds of a connection's start exactly the first 200 frames pass. */
  lemma FirstTwoHundredPass(start: int, times: seq<int>)
    requires times != [] && WithinWindow(start, times)
    ensures PassedFrame(AfterFrames(Limiter(start, 0), times)) <==> |times| <= 200
  {
    WindowCounts(Limiter(start, 0), times);
  }

  /**
   * The first frame more than ten seconds after the window's start opens a window at its own time:
   * of it and the frames of the ten seconds after it, exactly the first 200 pass.
   */
  lemma NewWindowPasses(s: Limiter, now: int, times: seq<int>)
    requires now - s.windowStart > 10_000 && WithinWindow(now, times)
    ensures PassedFrame(OnFrame(s, now))
    ensures PassedFrame(AfterFrames(OnFrame(s, now), times)) <==> |times| < 200
  {
    WindowCounts(OnFrame(s, now), times);
  }

  // ----- Invite-code lockout -----

  datatype Entry = Entry(count: nat, lockedUntil: int)

  /** A sign-up attempt of one address: when it is checked, when its result is recorded, whether the code is right. */
  datatype Attempt = Attempt(checkedAt: int, recordedAt: int, correct: bool)

  datatype Reply = LockedOut | InvalidCode | CodeAccepted

  class InviteCodeLockout {
    const maxFailures: int
    const lockoutMs: int
    var failures: map<Str, Entry>

    constructor (maxFailures: int, lockoutMs: int)
      ensures this.maxFailures == maxFailures && this.lockoutMs == lockoutMs && failures == map[]
    {
      this.maxFailures := maxFailures;
      this.lockoutMs := lockoutMs;
      failures := map[];
    }

    /** An address's entry, or the initial one. */
    function EntryOf(ip: Str): Entry
      reads this
    {
      if ip in failures then failures[ip] else Entry(0, 0)
    }

    method IsLocked(ip: Str, now: int) returns (locked: bool)
      modifies this
      ensures locked <==> Locked(old(EntryOf(ip)), now)
      ensures EntryOf(ip) == Refreshed(old(EntryOf(ip)), now)
      ensures forall other | other != ip :: EntryOf(other) == old(EntryOf(other))
    {
      if ip !in failures {
        return false;
      }
      var entry := failures[ip];
      if entry.lockedUntil != 0 && entry.lockedUntil <= now {
        failures := failures - {ip};
        return false;
      }
      return entry.lockedUntil != 0;
    }

    method RecordFailure(ip: Str, now: int)
      modifies this
      ensures EntryOf(ip) == Failed(old(EntryOf(ip)), now, maxFailures, lockoutMs)
      ensures forall other | other != ip :: EntryOf(other) == old(EntryOf(other))
    {
      var entry := EntryOf(ip);
      entry := entry.(count := entry.count + 1);
      if entry.count >= maxFailures {
        entry := entry.(lockedUntil := now + lockoutMs);
      }
      failures := failures[ip := entry];
    }

    method RecordSuccess(ip: Str)
      modifies this
      ensures EntryOf(ip) == Entry(0, 0)
      ensures forall other | other != ip :: EntryOf(other) == old(EntryOf(other))
    {
      failures := failures - {ip};
    }

    /** The sign-up route up to the verdict on the code. */
    method Signup(ip: Str, a: Attempt) returns (reply: Reply)
      modifies this
      ensures reply == if Locked(old(EntryOf(ip)), a.checkedAt) then LockedOut else if a.correct then CodeAccepted else InvalidCode
      ensures EntryOf(ip) == OnAttempt(old(EntryOf(ip)), a, maxFailures, lockoutMs)
      ensures forall other | other != ip :: EntryOf(other) == old(EntryOf(other))
    {
      var locked := IsLocked(ip, a.checkedAt);
      if locked {
        return LockedOut;
      }
      if !a.correct {
        RecordFailure(ip, a.recordedAt);
        return InvalidCode;
      }
      RecordSuccess(ip);
      return CodeAccepted;
    }
  }

  predicate Locked(e: Entry, now: int)
  {
    e.lockedUntil != 0 && e.lockedUntil > now
  }

  function Refreshed(e: Entry, now: int): Entry
  {
    if e.lockedUntil != 0 && e.lockedUntil <= now then Entry(0, 0) else e
  }

  function Failed(e: Entry, now: int, maxFailures: int, lockoutMs: int): Entry
  {
    Entry(e.count + 1, if e.count + 1 >= maxFailures then now + lockoutMs else e.lockedUntil)
  }

  /** The sign-up handler: a locked address is turned away before its code is looked at. */
  function OnAttempt(e: Entry, a: Attempt, maxFailures: int, lockoutMs: int): Entry
  {
    if Locked(e, a.checkedAt) then e
    else if a.correct then Entry(0, 0)
    else Failed(Refreshed(e, a.checkedAt), a.recordedAt, maxFailures, lockoutMs)
  }

  predicate Within(time: int, t: int, lockoutMs: int)
  {
    t <= time < t + lockoutMs
  }

  /** How many wrong codes are evaluated with a check time in [t, t + lockoutMs). */
  function EvaluatedIn(e: Entry, tries: seq<Attempt>, t: int, maxFailures: int, lockoutMs: int): nat
    decreases |tries|
  {
    if tries == [] then 0
    else
      var a := tries[0];
      (if !Locked(e, a.checkedAt) && !a.correct && Within(a.checkedAt, t, lockoutMs) then 1 else 0) +
      EvaluatedIn(OnAttempt(e, a, maxFailures, lockoutMs), tries[1..], t, maxFailures, lockoutMs)
  }

  predicate Timed(from: int, tries: seq<Attempt>)
  {
    && (tries != [] ==> from <= tries[0].checkedAt)
    && (forall i | 0 <= i < |tries| :: tries[i].checkedAt <= tries[i].recordedAt)
    && (forall i | 0 < i < |tries| :: tries[i - 1].recordedAt <= tries[i].checkedAt)
  }

  /** A locked entry has used up its failures; an unlocked one has some left. */
  predicate EntryOk(e: Entry, maxFailures: int)
  {
    e.lockedUntil == 0 ==> e.count < maxFailures
  }

  /**
   * How many evaluated failures of the interval the state allows for: while unlocked they are all
   * in the count, and a lock that followed one of them outlasts the interval.
   */
  predicate LockAccounted(e: Entry, now: int, t: int, maxFailures: int, lockoutMs: int, used: nat)
  {
    && used <= maxFailures && (used > 0 ==> t <= now)
    && (|| t + lockoutMs <= now
        || (if e.lockedUntil == 0 then used <= e.count else used > 0 ==> e.lockedUntil >= t + lockoutMs))
  }

  lemma {:induction false} LockoutInduction(e: Entry, now: int, tries: seq<Attempt>, t: int, maxFailures: int, lockoutMs: int, used: nat)
    requires 0 < now && 0 < maxFailures && 0 <= lockoutMs && Timed(now, tries) && EntryOk(e, maxFailures)
    requires forall a <- tries :: a.correct ==> !Within(a.checkedAt, t, lockoutMs)
    requires LockAccounted(e, now, t, maxFailures, lockoutMs, used)
    ensures used + EvaluatedIn(e, tries, t, maxFailures, lockoutMs) <= maxFailures
    decreases |tries|
  {
    if tries != [] {
      var a := tries[0];
      var e1 := OnAttempt(e, a, maxFailures, lockoutMs);
      var counted := !Locked(e, a.checkedAt) && !a.correct && Within(a.checkedAt, t, lockoutMs);
      LockoutInduction(e1, a.recordedAt, tries[1..], t, maxFailures, lockoutMs, if counted then used + 1 else used);
    }
  }

  /**
   * Over every run of attempts from one address, a half-open interval of the lockout's length that
   * contains no correct code evaluates at most `maxFailures` wrong ones.
   */
  lemma WrongCodesBounded(now: int, tries: seq<Attempt>, t: int, maxFailures: int, lockoutMs: int)
    requires 0 < now && 0 < maxFailures && 0 <= lockoutMs && Timed(now, tries)
    requires forall a <- tries :: a.correct ==> !Within(a.checkedAt, t, lockoutMs)
    ensures EvaluatedIn(Entry(0, 0), tries, t, maxFailures, lockoutMs) <= maxFailures
  {
    LockoutInduction(Entry(0, 0), now, tries, t, maxFailures, lockoutMs, 0);
  }

  function AfterTries(e: Entry, tries: seq<Attempt>, maxFailures: int, lockoutMs: int): Entry
  {
    if tries == [] then e
    else OnAttempt(AfterTries(e, tries[..|tries| - 1], maxFailures, lockoutMs), tries[|tries| - 1], maxFailures, lockoutMs)
  }

  /** Wrong codes from a clean address: up to the last allowed one they only count; that one locks. */
  lemma {:induction false} WrongCodesLock(tries: seq<Attempt>, maxFailures: int, lockoutMs: int)
    requires 0 < |tries| <= maxFailures && forall a <- tries :: !a.correct
    ensures AfterTries(Entry(0, 0), tries, maxFailures, lockoutMs) ==
            Entry(|tries|, if |tries| == maxFailures then tries[|tries| - 1].recordedAt + lockoutMs else 0)
  {
    var n := |tries| - 1;
    assert tries[n] in tries && forall a <- tries[..n] :: a in tries;
    if n > 0 {
      WrongCodesLock(tries[..n], maxFailures, lockoutMs);
    }
  }

  /**
   * After the last allowed wrong code the address is locked until `lockoutMs` later, even to the
   * correct code, and from then on a code is looked at again: a correct one clears the address, a
   * wrong one is the first of a new count.
   */
  lemma LockRunsOut(tries: seq<Attempt>, a: Attempt, maxFailures: int, lockoutMs: int)
    requires 0 < |tries| == maxFailures && forall x <- tries :: !x.correct
    requires 0 < tries[|tries| - 1].recordedAt && 0 <= lockoutMs
    ensures
      var e := AfterTries(Entry(0, 0), tries, maxFailures, lockoutMs);
      var until := tries[|tries| - 1].recordedAt + lockoutMs;
      && (Locked(e, a.checkedAt) <==> a.checkedAt < until)
      && OnAttempt(e, a, maxFailures, lockoutMs) ==
         if a.checkedAt < until then e
         else if a.correct then Entry(0, 0)
         else Entry(1, if maxFailures == 1 then a.recordedAt + lockoutMs else 0)
  {
    WrongCodesLock(tries, maxFailures, lockoutMs);
  }

  /** Before the last allowed wrong code nothing is locked and a correct code clears the count. */
  lemma UnlockedBefore(tries: seq<Attempt>, a: Attempt, maxFailures: int, lockoutMs: int)
    requires |tries| < maxFailures && forall x <- tries :: !x.correct
    ensures
      var e := AfterTries(Entry(0, 0), tries, maxFailures, lockoutMs);
      !Locked(e, a.checkedAt) && (a.correct ==> OnAttempt(e, a, maxFailures, lockoutMs) == Entry(0, 0))
  {
    if tries != [] {
      WrongCodesLock(tries, maxFailures, lockoutMs);
    }
  }
}
