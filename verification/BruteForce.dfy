/** The login lockout of app/auth/brute_force.py, and the rate at which failures can be
    recorded through it. Times are seconds of a monotonic clock that starts at zero. */
module BruteForce {
  import opened Sequences

  /** Failures counted, start of their window, and the time until which the key is locked. */
  datatype Record = Record(count: int, windowStart: real, lockedUntil: real)

  const NO_RECORD := Record(0, 0.0, 0.0)

  datatype Policy = Policy(maxFailures: int, window: real, lockout: real)

  predicate Locked(rec: Record, now: real) {
    rec.lockedUntil > now
  }

  function AfterFailure(policy: Policy, rec: Record, now: real): Record {
    var expired := rec.lockedUntil <= now && now - rec.windowStart > policy.window;
    var count := (if expired then 0 else rec.count) + 1;
    Record(count, if expired then now else rec.windowStart,
           if count >= policy.maxFailures then now + policy.lockout else rec.lockedUntil)
  }

  class BruteForceGuard {
    const policy: Policy
    var records: map<string, Record>

    constructor (policy: Policy)
      ensures this.policy == policy && records == map[]
    {
      this.policy := policy;
      records := map[];
    }

    function Get(key: string): Record
      reads this
    {
      if key in records then records[key] else NO_RECORD
    }

    /** False stands for BruteForceLockedError. */
    method CheckAllowed(key: string, now: real) returns (allowed: bool)
      ensures allowed <==> !Locked(Get(key), now)
    {
      var rec := Get(key);
      allowed := rec.lockedUntil <= now;
    }

    method RecordFailure(key: string, now: real)
      modifies this`records
      ensures Get(key) == AfterFailure(policy, old(Get(key)), now)
      ensures forall other :: other != key ==> Get(other) == old(Get(other))
    {
      var rec := Get(key);
      var count, windowStart, lockedUntil := rec.count, rec.windowStart, rec.lockedUntil;
      if lockedUntil <= now && now - windowStart > policy.window {
        count := 0;
        windowStart := now;
      }
      count := count + 1;
      if count >= policy.maxFailures {
        lockedUntil := now + policy.lockout;
      }
      records := records[key := Record(count, windowStart, lockedUntil)];
    }

    method RecordSuccess(key: string)
      modifies this`records
      ensures Get(key) == NO_RECORD
      ensures forall other :: other != key ==> Get(other) == old(Get(other))
    {
      records := records - {key};
    }

    /** One failing login of a key: the lockout check, then the failure when it was let in. */
    method FailedLogin(key: string, a: Attempt) returns (recorded: bool)
      modifies this`records
      ensures recorded <==> !Locked(old(Get(key)), a.checkAt)
      ensures Get(key) == Next(policy, State(old(Get(key)), []), a).rec
      ensures forall other :: other != key ==> Get(other) == old(Get(other))
    {
      recorded := CheckAllowed(key, a.checkAt);
      if recorded {
        RecordFailure(key, a.failAt);
      }
    }
  }

  /** What one recorded failure does to a key's record, whatever it was: while the key is locked, or its
      window has not run out, it counts on in the same window; otherwise a new window starts with it. The
      failure that reaches the maximum locks the key, or extends its lock, from now on. */
  lemma FailureExactly(policy: Policy, rec: Record, now: real)
    ensures var after := AfterFailure(policy, rec, now);
            && (if rec.lockedUntil > now || now <= rec.windowStart + policy.window then
                  after.count == rec.count + 1 && after.windowStart == rec.windowStart
                else after.count == 1 && after.windowStart == now)
            && after.lockedUntil == if after.count >= policy.maxFailures then now + policy.lockout else rec.lockedUntil
  {
  }

  /** A failure that slips in while its key is locked never lets the lock end earlier. */
  lemma LockNeverShrinks(policy: Policy, rec: Record, locked: real, now: real)
    requires policy.lockout >= 0.0 && locked <= now && rec.lockedUntil == locked + policy.lockout
    ensures AfterFailure(policy, rec, now).lockedUntil >= rec.lockedUntil
  {
    FailureExactly(policy, rec, now);
  }

  // ---------------------------------------------------------------- runs of one key

  /** A login attempt with a wrong password: checked, then recorded unless locked out. */
  datatype Attempt = Attempt(checkAt: real, failAt: real)

  /** A recorded failure, with the start of the window it was counted in. */
  datatype Failure = Failure(at: real, windowStart: real)

  datatype State = State(rec: Record, log: seq<Failure>)

  function Next(policy: Policy, s: State, a: Attempt): State {
    if Locked(s.rec, a.checkAt) then s
    else
      var rec := AfterFailure(policy, s.rec, a.failAt);
      State(rec, s.log + [Failure(a.failAt, rec.windowStart)])
  }

  function Run(policy: Policy, s: State, attempts: seq<Attempt>): State {
    if attempts == [] then s
    else
      var last := |attempts| - 1;
      Next(policy, Run(policy, s, attempts[..last]), attempts[last])
  }

  const START := State(NO_RECORD, [])

  /** The clock does not go back within the run. */
  ghost predicate Clocked(attempts: seq<Attempt>) {
    && (forall i :: 0 <= i < |attempts| ==> 0.0 <= attempts[i].checkAt <= attempts[i].failAt)
    && (forall i, j :: 0 <= i < j < |attempts| ==> attempts[i].failAt <= attempts[j].checkAt)
  }

  function CountedIn(windowStart: real): Failure -> bool {
    (f: Failure) => f.windowStart == windowStart
  }

  function Within(from: real, to: real): Failure -> bool {
    (f: Failure) => from <= f.at <= to
  }

  // ---------------------------------------------------------------- the log invariant

  /** Each failure lies inside its window. */
  ghost predicate InsideWindows(policy: Policy, log: seq<Failure>) {
    forall i :: 0 <= i < |log| ==> log[i].windowStart <= log[i].at <= log[i].windowStart + policy.window
  }

  ghost predicate InOrder(log: seq<Failure>) {
    forall i, j :: 0 <= i < j < |log| ==> log[i].at <= log[j].at && log[i].windowStart <= log[j].windowStart
  }

  /** No maxFailures + 1 consecutive failures share a window, and the next window starts more
      than a window's length later. */
  ghost predicate SpreadOut(policy: Policy, log: seq<Failure>) {
    forall i, j :: 0 <= i < |log| && 0 <= j < |log| && i + policy.maxFailures <= j ==>
      log[j].windowStart > log[i].windowStart + policy.window
  }

  ghost predicate LogOk(policy: Policy, log: seq<Failure>) {
    InsideWindows(policy, log) && InOrder(log) && SpreadOut(policy, log)
  }

  /** The record counts the tail of the log that shares its window, and locks when it is full. */
  ghost predicate RecordOk(policy: Policy, s: State, clock: real) {
    var rec, log := s.rec, s.log;
    && 0 <= rec.count <= policy.maxFailures && rec.count <= |log|
    && 0.0 <= rec.windowStart <= clock
    && (forall i :: 0 <= i < |log| ==> log[i].at <= clock)
    && (forall i :: |log| - rec.count <= i < |log| ==> log[i].windowStart == rec.windowStart)
    && (forall i :: 0 <= i < |log| - rec.count ==> log[i].windowStart + policy.window < rec.windowStart)
    && (if rec.count < policy.maxFailures then rec.lockedUntil <= rec.windowStart
        else rec.lockedUntil >= rec.windowStart + policy.lockout)
  }

  ghost predicate Guarded(policy: Policy) {
    policy.maxFailures >= 1 && policy.window >= 0.0 && policy.lockout > policy.window
  }

  lemma NextKeepsSpread(policy: Policy, s: State, a: Attempt, clock: real)
    requires Guarded(policy) && LogOk(policy, s.log) && RecordOk(policy, s, clock)
    requires clock <= a.checkAt <= a.failAt && !Locked(s.rec, a.checkAt)
    ensures SpreadOut(policy, Next(policy, s, a).log)
  {
    var after := Next(policy, s, a);
    var n := |s.log|;
    forall i | 0 <= i < n && i + policy.maxFailures <= n
      ensures after.rec.windowStart > s.log[i].windowStart + policy.window
    {
      if i < n - s.rec.count {
        assert s.log[i].windowStart + policy.window < s.rec.windowStart;
      } else {
        assert s.log[i].windowStart == s.rec.windowStart;
      }
    }
  }

  lemma NextKeepsRecord(policy: Policy, s: State, a: Attempt, clock: real)
    requires Guarded(policy) && LogOk(policy, s.log) && RecordOk(policy, s, clock)
    requires clock <= a.checkAt <= a.failAt && !Locked(s.rec, a.checkAt)
    ensures RecordOk(policy, Next(policy, s, a), a.failAt)
    ensures InsideWindows(policy, Next(policy, s, a).log) && InOrder(Next(policy, s, a).log)
  {
    var after := Next(policy, s, a);
    var n := |s.log|;
    assert after.log[n] == Failure(a.failAt, after.rec.windowStart);
    forall i | 0 <= i < n ensures s.log[i].windowStart <= after.rec.windowStart && s.log[i].at <= a.failAt {
      assert s.log[i].windowStart <= s.log[i].at <= clock;
      if i < n - s.rec.count {
        assert s.log[i].windowStart + policy.window < s.rec.windowStart;
      }
    }
    assert RecordOk(policy, after, a.failAt);
  }

  lemma NextKeepsLog(policy: Policy, s: State, a: Attempt, clock: real)
    requires Guarded(policy) && LogOk(policy, s.log) && RecordOk(policy, s, clock)
    requires clock <= a.checkAt <= a.failAt
    ensures LogOk(policy, Next(policy, s, a).log) && RecordOk(policy, Next(policy, s, a), a.failAt)
  {
    if !Locked(s.rec, a.checkAt) {
      NextKeepsSpread(policy, s, a, clock);
      NextKeepsRecord(policy, s, a, clock);
    }
  }

  lemma {:induction false} RunKeepsLog(policy: Policy, attempts: seq<Attempt>, clock: real)
    requires Guarded(policy) && Clocked(attempts) && clock >= 0.0
    requires attempts != [] ==> attempts[|attempts| - 1].failAt <= clock
    ensures LogOk(policy, Run(policy, START, attempts).log)
    ensures RecordOk(policy, Run(policy, START, attempts), clock)
  {
    if attempts != [] {
      var last := |attempts| - 1;
      RunKeepsLog(policy, attempts[..last], attempts[last].checkAt);
      NextKeepsLog(policy, Run(policy, START, attempts[..last]), attempts[last], attempts[last].checkAt);
    }
  }

  // ---------------------------------------------------------------- failures per window

  ghost predicate WindowsBounded(policy: Policy, attempts: seq<Attempt>) {
    forall w: real :: CountOf(Run(policy, START, attempts).log, CountedIn(w)) <= policy.maxFailures
  }

  lemma GuardedBoundsWindows(policy: Policy, attempts: seq<Attempt>)
    requires Guarded(policy) && Clocked(attempts)
    ensures WindowsBounded(policy, attempts)
  {
    RunKeepsLog(policy, attempts, if attempts == [] then 0.0 else attempts[|attempts| - 1].failAt);
    var log := Run(policy, START, attempts).log;
    forall w: real ensures CountOf(log, CountedIn(w)) <= policy.maxFailures {
      if CountOf(log, CountedIn(w)) > policy.maxFailures {
        var i, j := FarWitnesses(log, CountedIn(w), policy.maxFailures);
        assert false;
      }
    }
  }

  /** n failures at time zero, before the lockout is reached. */
  lemma {:induction false} FailuresAtZero(policy: Policy, n: nat)
    requires policy.maxFailures >= 1 && policy.window >= 0.0 && n <= policy.maxFailures
    ensures var s := Run(policy, START, seq(n, i => Attempt(0.0, 0.0)));
            && s.log == seq(n, i => Failure(0.0, 0.0))
            && s.rec == Record(n, 0.0, if n < policy.maxFailures then 0.0 else policy.lockout)
  {
    if n > 0 {
      FailuresAtZero(policy, n - 1);
      var attempts := seq(n, i => Attempt(0.0, 0.0));
      assert attempts[..n - 1] == seq(n - 1, i => Attempt(0.0, 0.0));
    }
  }

  /** A lockout no longer than the window lets one failure too many into it: maxFailures at time
      zero, and one more when the lockout has ended but the window has not. */
  lemma ShortLockoutOverfillsWindow(policy: Policy) returns (attempts: seq<Attempt>)
    requires policy.maxFailures >= 1 && policy.window >= 0.0 && policy.lockout <= policy.window
    ensures Clocked(attempts) && !WindowsBounded(policy, attempts)
  {
    var n := policy.maxFailures;
    var end := if policy.lockout > 0.0 then policy.lockout else 0.0;
    var zeros := seq(n, i => Attempt(0.0, 0.0));
    attempts := zeros + [Attempt(end, end)];
    FailuresAtZero(policy, n);
    assert attempts[..n] == zeros;
    var log := Run(policy, START, attempts).log;
    assert log == seq(n, i => Failure(0.0, 0.0)) + [Failure(end, 0.0)];
    CountAll(log, CountedIn(0.0));
    assert CountOf(log, CountedIn(0.0)) > policy.maxFailures;
  }

  /** Every run of failing attempts records at most maxFailures per counting window exactly
      when the lockout outlasts the window. */
  lemma WindowBoundExactly(policy: Policy)
    requires policy.maxFailures >= 1 && policy.window >= 0.0
    ensures (forall attempts :: Clocked(attempts) ==> WindowsBounded(policy, attempts))
            <==> policy.lockout > policy.window
  {
    if policy.lockout > policy.window {
      forall attempts | Clocked(attempts) ensures WindowsBounded(policy, attempts) {
        GuardedBoundsWindows(policy, attempts);
      }
    } else {
      var attempts := ShortLockoutOverfillsWindow(policy);
    }
  }

  // ---------------------------------------------------------------- failures per span

  lemma {:induction false} WindowsSpread(policy: Policy, log: seq<Failure>, i: nat, m: nat)
    requires policy.maxFailures >= 1 && policy.window >= 0.0 && LogOk(policy, log)
    requires i + m * policy.maxFailures < |log|
    ensures log[i + m * policy.maxFailures].windowStart >= log[i].windowStart + (m as real) * policy.window
  {
    if m > 0 {
      var before := i + (m - 1) * policy.maxFailures;
      assert before + policy.maxFailures == i + m * policy.maxFailures;
      WindowsSpread(policy, log, i, m - 1);
      assert (m as real) * policy.window == ((m - 1) as real) * policy.window + policy.window;
    }
  }

  lemma SpanExceeded(span: real, window: real)
    requires window > 0.0 && span >= 0.0
    ensures (((span / window).Floor + 2) as real) * window > span + window
  {
    var q := span / window;
    var k := q.Floor as real;
    assert (q.Floor + 2) as real == k + 2.0;
    ScaleStrict(q + 1.0, k + 2.0, window);
    calc {
      (q + 1.0) * window;
      q * window + window;
      span + window;
    }
  }

  lemma ScaleStrict(a: real, b: real, window: real)
    requires a < b && window > 0.0
    ensures a * window < b * window
  {
    assert (b - a) * window > 0.0;
  }

  /** A run of more failures than the bound would reach a window that starts after the span. */
  lemma TooManyFailuresLeaveSpan(policy: Policy, log: seq<Failure>, i: nat, j: nat, from: real, span: real)
    requires policy.maxFailures >= 1 && policy.window > 0.0 && span >= 0.0 && LogOk(policy, log)
    requires i + ((span / policy.window).Floor + 2) * policy.maxFailures <= j < |log|
    requires log[i].at >= from
    ensures log[j].at > from + span
  {
    var m: nat := (span / policy.window).Floor + 2;
    var k := i + m * policy.maxFailures;
    WindowsSpread(policy, log, i, m);
    SpanExceeded(span, policy.window);
    var reach := (m as real) * policy.window;
    assert reach > span + policy.window;
    assert log[k].windowStart >= log[i].windowStart + reach;
    assert log[k].windowStart <= log[j].windowStart <= log[j].at;
    assert log[i].windowStart + policy.window >= log[i].at;
  }

  /** In any span of length T a key records at most maxFailures * (floor(T / window) + 2) failures. */
  lemma FailureRateBound(policy: Policy, attempts: seq<Attempt>, from: real, span: real)
    requires Guarded(policy) && policy.window > 0.0 && Clocked(attempts) && span >= 0.0
    ensures CountOf(Run(policy, START, attempts).log, Within(from, from + span))
            <= ((span / policy.window).Floor + 2) * policy.maxFailures
  {
    RunKeepsLog(policy, attempts, if attempts == [] then 0.0 else attempts[|attempts| - 1].failAt);
    var log := Run(policy, START, attempts).log;
    var bound := ((span / policy.window).Floor + 2) * policy.maxFailures;
    if CountOf(log, Within(from, from + span)) > bound {
      var i, j := FarWitnesses(log, Within(from, from + span), bound);
      TooManyFailuresLeaveSpan(policy, log, i, j, from, span);
      assert false;
    }
  }
}
