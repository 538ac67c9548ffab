/**
  The retry engine of `shared/src/retry.ts`. Times are whole milliseconds. The operation, the guard, the
  sleep, the random source and the classifier are arbitrary: they are read per attempt from an
  `Environment`, so what is proved holds for every one of them.
 */
module Retry {
  import opened Sequences
  import opened Wrappers

  datatype Backoff = Exponential | Linear | Fixed
  datatype Jitter = NoJitter | Full | Equal
  datatype RetryAfterMode = Cap | Strict | Ignore

  datatype Config = Config(
    maxRetries: int, backoff: Backoff, jitter: Jitter, baseDelayMs: int, maxDelayMs: int,
    attemptTimeoutMs: Option<int>, totalTimeoutMs: Option<int>, retryAfter: RetryAfterMode)

  /** `Raised` is whatever the operation throws; the timeouts are the engine's own. */
  datatype Failure = Raised(id: int) | AttemptTimeout | TotalTimeout

  datatype Outcome = Value(value: int) | Failed(failure: Failure)

  /** How the operation would behave if nothing cut it short; on an exact tie with the timer either may win. */
  datatype Work = Work(duration: nat, outcome: Outcome, winsTie: bool)

  datatype Decision = Go | Skip | Stop(value: int)

  datatype Environment = Environment(
    work: nat -> Work,
    oversleep: nat -> nat,               // how much later than asked the sleep before attempt n ends
    guard: nat -> (Decision, nat),       // beforeRetry: its answer and how long it takes
    draw: nat -> real,                   // the random draw for the n-th delay
    retryable: Failure -> bool,
    retryAfterMs: Failure -> Option<nat>)

  /** The random source yields values in [0, 1). */
  ghost predicate FairDraws(env: Environment) { forall n :: 0.0 <= env.draw(n) < 1.0 }

  // ----- delays -----

  function Min(a: int, b: int): int { if a < b then a else b }
  function Max(a: int, b: int): int { if a < b then b else a }

  function Pow2(n: nat): int { if n == 0 then 1 else 2 * Pow2(n - 1) }

  function JitteredDelayMs(ceilingMs: int, r: real): int { (r * Max(0, ceilingMs) as real).Floor }

  function Ceiling(attempt: nat, c: Config): int {
    match c.backoff
    case Exponential => Min(c.maxDelayMs, c.baseDelayMs * Pow2(attempt))
    case Linear => Min(c.maxDelayMs, c.baseDelayMs * (attempt + 1))
    case Fixed => Min(c.maxDelayMs, c.baseDelayMs)
  }

  function ComputeDelayMs(attempt: nat, c: Config, r: real): int {
    var ceiling := Ceiling(attempt, c);
    match c.jitter
    case Full => JitteredDelayMs(ceiling, r)
    case Equal => ceiling / 2 + JitteredDelayMs(ceiling - ceiling / 2, r)
    case NoJitter => ceiling
  }

  function ResolveDelayMs(attempt: nat, c: Config, env: Environment, failure: Failure): int {
    var asked := env.retryAfterMs(failure);
    if c.retryAfter != Ignore && asked.Some? then
      if c.retryAfter == Strict then asked.value else Min(c.maxDelayMs, asked.value)
    else ComputeDelayMs(attempt, c, env.draw(attempt))
  }

  // ----- one attempt -----

  /** `runAttempt`: the operation against the timer. Returns the time it ends and how. */
  function RunAttempt(c: Config, w: Work, now: int, deadline: Option<int>): (int, Outcome) {
    if c.attemptTimeoutMs == None then (now + w.duration, w.outcome)
    else
      var limit := c.attemptTimeoutMs.value;
      var allowed := if deadline == None then limit else Min(limit, deadline.value - now);
      var timer := Max(0, allowed);
      if w.duration < timer || (w.duration == timer && w.winsTie) then (now + w.duration, w.outcome)
      else (now + timer, Failed(if deadline != None && allowed < limit then TotalTimeout else AttemptTimeout))
  }

  // ----- the runner -----

  /** A call of the operation. */
  datatype Call = Call(attempt: nat, start: int, end: int, outcome: Outcome)

  datatype Result =
    | Resolved(value: int)
    | Exhausted(last: Option<Failure>, attempts: nat)   // finalError(lastError, attempts)
    | BudgetSpent                                       // a total timeout

  datatype Report = Report(result: Result, calls: seq<Call>, sleeps: seq<int>, end: int)

  predicate Retried(env: Environment, call: Call) {
    call.outcome.Failed? && call.outcome.failure != TotalTimeout && env.retryable(call.outcome.failure)
  }

  /** Timers are exact and there is no `beforeRetry`. */
  ghost predicate Exact(env: Environment) { forall n :: env.oversleep(n) == 0 && env.guard(n) == (Go, 0) }

  /** The calls of the operation: attempt numbers increase; each call is the operation's own run, cut by
      its timer; another call follows only a failure that is retryable and no total timeout; and every
      call starts before the deadline. */
  predicate CallsOk(c: Config, env: Environment, t0: int, calls: seq<Call>) {
    && (forall i :: 0 <= i < |calls| ==> i <= calls[i].attempt && t0 <= calls[i].start <= calls[i].end)
    && (forall i, j :: 0 <= i < j < |calls| ==> calls[i].attempt < calls[j].attempt && calls[i].end <= calls[j].start)
    && (forall i :: 0 <= i < |calls| ==>
          (calls[i].end, calls[i].outcome) == RunAttempt(c, env.work(calls[i].attempt), calls[i].start, Deadline(c, t0)))
    && (forall i :: 0 <= i < |calls| - 1 ==> Retried(env, calls[i]))
    && (c.totalTimeoutMs.Some? ==> forall i :: 0 <= i < |calls| ==> calls[i].start < t0 + c.totalTimeoutMs.value)
  }

  /** All calls are before attempt `bound` and over by `now`. */
  predicate Before(calls: seq<Call>, bound: int, now: int) {
    calls != [] ==> Last(calls).attempt < bound && Last(calls).end <= now
  }

  lemma AppendCall(c: Config, env: Environment, t0: int, calls: seq<Call>, x: Call, bound: int, now: int)
    requires CallsOk(c, env, t0, calls) && Before(calls, bound, now)
    requires calls != [] ==> Retried(env, Last(calls))
    requires bound <= x.attempt && 0 <= x.attempt && now <= x.start <= x.end && t0 <= x.start
    requires (x.end, x.outcome) == RunAttempt(c, env.work(x.attempt), x.start, Deadline(c, t0))
    requires !TooLate(Deadline(c, t0), x.start, 0)
    ensures CallsOk(c, env, t0, calls + [x])
  {
    var all := calls + [x];
    forall i, j | 0 <= i < j < |all| ensures all[i].attempt < all[j].attempt && all[i].end <= all[j].start {
      if j == |calls| && i < |calls| - 1 {
        assert calls[i].attempt < Last(calls).attempt && calls[i].end <= Last(calls).start;
      }
    }
    assert |calls| <= x.attempt;
  }

  /** So there are at most maxRetries + 1 of them. */
  lemma CallsAreFew(c: Config, env: Environment, t0: int, calls: seq<Call>, now: int)
    requires CallsOk(c, env, t0, calls) && Before(calls, c.maxRetries + 1, now)
    ensures |calls| <= Max(0, c.maxRetries + 1)
    ensures forall i :: 0 <= i < |calls| ==> calls[i].attempt <= c.maxRetries && calls[i].end <= now
  {
  }

  /** `x` is the lesser of the two. */
  predicate IsLesser(x: int, a: int, b: int) { x <= a && x <= b && (x == a || x == b) }

  /** The curve's own value for the `k`-th delay, before the cap and the jitter. */
  function Curve(c: Config, k: nat): int {
    match c.backoff
    case Exponential => c.baseDelayMs * Pow2(k)
    case Linear => c.baseDelayMs * (k + 1)
    case Fixed => c.baseDelayMs
  }

  /** `x` is the whole part of the draw from [0, top), or 0 if `top` is not positive. */
  predicate IsDraw(x: int, draw: real, top: int) {
    if top <= 0 then x == 0 else WholePart(x, draw * top as real)
  }

  predicate WholePart(x: int, y: real) { x as real <= y < (x + 1) as real }

  /** The delay is on the curve: capped, and jittered as configured. */
  predicate OnCurve(c: Config, k: nat, draw: real, delay: int) {
    Jittered(c, draw, if Curve(c, k) < c.maxDelayMs then Curve(c, k) else c.maxDelayMs, delay)
  }

  predicate Jittered(c: Config, draw: real, top: int, delay: int) {
    match c.jitter
    case NoJitter => delay == top
    case Full => IsDraw(delay, draw, top)
    case Equal => IsDraw(delay - top / 2, draw, top - top / 2)
  }

  /** The pause after a failure for which the peer asks `asked`: exactly that, the lesser of that and the
      cap, or one on the curve. */
  predicate PauseOk(c: Config, k: nat, draw: real, asked: Option<int>, delay: int) {
    match c.retryAfter
    case Strict => if asked.Some? then delay == asked.value else OnCurve(c, k, draw, delay)
    case Cap => if asked.Some? then IsLesser(delay, c.maxDelayMs, asked.value) else OnCurve(c, k, draw, delay)
    case Ignore => OnCurve(c, k, draw, delay)
  }

  /** The `i`-th call is the last one before attempt `k + 1`. */
  predicate LastBefore(calls: seq<Call>, i: nat, k: nat) {
    i < |calls| && calls[i].attempt <= k && (i + 1 < |calls| ==> k < calls[i + 1].attempt)
  }

  /** The `k`-th sleep, which is the one before attempt `k + 1`, is the pause after the last call before it. */
  predicate SleepOk(c: Config, env: Environment, calls: seq<Call>, k: nat, delay: int) {
    exists i | 0 <= i < |calls| :: LastBefore(calls, i, k) && calls[i].outcome.Failed?
                                   && PauseOk(c, k, env.draw(k), env.retryAfterMs(calls[i].outcome.failure), delay)
  }

  predicate SleepsOk(c: Config, env: Environment, calls: seq<Call>, sleeps: seq<int>) {
    forall k | 0 <= k < |sleeps| :: SleepOk(c, env, calls, k, sleeps[k])
  }

  lemma JitterDraws(top: int, draw: real)
    ensures IsDraw(JitteredDelayMs(top, draw), draw, top)
  {
    if top <= 0 {
      assert Max(0, top) == 0 && draw * 0.0 == 0.0;
    }
  }

  lemma CeilingIsCapped(k: nat, c: Config)
    ensures Ceiling(k, c) == if Curve(c, k) < c.maxDelayMs then Curve(c, k) else c.maxDelayMs
  {
  }

  lemma ResolveIsPause(k: nat, c: Config, env: Environment, failure: Failure)
    ensures PauseOk(c, k, env.draw(k), env.retryAfterMs(failure), ResolveDelayMs(k, c, env, failure))
  {
    var top := Ceiling(k, c);
    CeilingIsCapped(k, c);
    JitterDraws(top, env.draw(k));
    JitterDraws(top - top / 2, env.draw(k));
    assert Jittered(c, env.draw(k), top, ComputeDelayMs(k, c, env.draw(k)));
  }

  /** A call of a later attempt changes nothing for the sleeps before. */
  lemma SleepsStay(c: Config, env: Environment, calls: seq<Call>, sleeps: seq<int>, x: Call)
    requires SleepsOk(c, env, calls, sleeps) && |sleeps| <= x.attempt
    ensures SleepsOk(c, env, calls + [x], sleeps)
  {
    var all := calls + [x];
    forall k | 0 <= k < |sleeps| ensures SleepOk(c, env, all, k, sleeps[k]) {
      assert SleepOk(c, env, calls, k, sleeps[k]);
      var i :| 0 <= i < |calls| && LastBefore(calls, i, k) && calls[i].outcome.Failed?
               && PauseOk(c, k, env.draw(k), env.retryAfterMs(calls[i].outcome.failure), sleeps[k]);
      assert LastBefore(all, i, k) && all[i] == calls[i];
    }
  }

  /** The next sleep is the pause after the last call. */
  lemma NextSleep(c: Config, env: Environment, calls: seq<Call>, sleeps: seq<int>, failure: Failure)
    requires SleepsOk(c, env, calls, sleeps) && calls != [] && Last(calls).attempt <= |sleeps|
    requires Last(calls).outcome == Failed(failure)
    ensures SleepsOk(c, env, calls, sleeps + [ResolveDelayMs(|sleeps|, c, env, failure)])
  {
    var n := |sleeps|;
    var delay := ResolveDelayMs(n, c, env, failure);
    ResolveIsPause(n, c, env, failure);
    assert LastBefore(calls, |calls| - 1, n);
    forall k | 0 <= k < n + 1 ensures SleepOk(c, env, calls, k, (sleeps + [delay])[k]) {
      if k < n {
        assert SleepOk(c, env, calls, k, sleeps[k]);
      }
    }
  }

  /** The guard passed over every attempt after the last call and before `bound`. */
  predicate SkippedSince(env: Environment, calls: seq<Call>, bound: int) {
    forall n: nat | n < bound && calls != [] && Last(calls).attempt < n :: env.guard(n).0 == Skip
  }

  /** Why the run ends, and not earlier. It resolves with the value of the last call or of the guard. It
      gives up after a failure that is not retryable, after the last attempt, or because the pause a peer
      asked for does not fit. It is out of budget when the deadline has come, when the next pause does not
      fit, or when the operation reports a total timeout itself. */
  ghost predicate ResultOk(c: Config, env: Environment, t0: int, r: Report) {
    match r.result
    case Resolved(value) =>
      || (r.calls != [] && Last(r.calls).outcome == Value(value))
      || (exists n: nat | n <= c.maxRetries :: env.guard(n).0 == Stop(value) && SkippedSince(env, r.calls, n))
    case Exhausted(last, attempts) =>
      if r.calls == [] then last == None && attempts == 0 && c.maxRetries < 0
      else
        && Last(r.calls).outcome.Failed? && last == Some(Last(r.calls).outcome.failure)
        && (|| (!env.retryable(last.value) && attempts == Last(r.calls).attempt + 1)
            || (SkippedSince(env, r.calls, c.maxRetries + 1) && attempts == c.maxRetries + 1)
            || (env.retryAfterMs(last.value).Some? && NextPauseTooLong(c, env, t0, r, last.value, attempts - 1)))
    case BudgetSpent =>
      || TooLate(Deadline(c, t0), r.end, 0)
      || (r.calls != [] && Last(r.calls).outcome == Failed(TotalTimeout))
      || (r.calls != [] && Last(r.calls).outcome.Failed? && env.retryAfterMs(Last(r.calls).outcome.failure).None?
          && exists n :: NextPauseTooLong(c, env, t0, r, Last(r.calls).outcome.failure, n))
  }

  /** The pause before attempt `n` would pass the deadline. */
  predicate NextPauseTooLong(c: Config, env: Environment, t0: int, r: Report, failure: Failure, n: int) {
    0 < n <= c.maxRetries && SkippedSince(env, r.calls, n)
    && TooLate(Deadline(c, t0), r.end, ResolveDelayMs(n - 1, c, env, failure))
  }

  /** Whether the budget rules out waiting `delay` more. */
  predicate TooLate(deadline: Option<int>, now: int, delay: int) { deadline.Some? && now + delay >= deadline.value }

  /** The loop's variables. */
  datatype Progress = Progress(now: int, last: Option<Failure>, calls: seq<Call>, sleeps: seq<int>)

  datatype Verdict = Proceed | PassOver | End(result: Result)

  function Stopped(s: Progress, result: Result): Report { Report(result, s.calls, s.sleeps, s.now) }

  /** The part of an iteration before the operation: back off, then consult the guard. */
  function BackedOff(c: Config, env: Environment, t0: int, attempt: nat, s: Progress): (Progress, Verdict)
    requires attempt > 0 && s.last.Some?
  {
    var delay := ResolveDelayMs(attempt - 1, c, env, s.last.value);
    if TooLate(Deadline(c, t0), s.now, delay) then
      // A peer that asked for a longer pause than the budget allows is reported as such.
      (s, End(if env.retryAfterMs(s.last.value).Some? then Exhausted(s.last, attempt + 1) else BudgetSpent))
    else
      var (decision, took) := env.guard(attempt);
      (s.(sleeps := s.sleeps + [delay], now := s.now + Max(0, delay) + env.oversleep(attempt) + took),
       match decision case Stop(value) => End(Resolved(value)) case Skip => PassOver case Go => Proceed)
  }

  /** The operation, and what its outcome means. */
  function Attempted(c: Config, env: Environment, t0: int, attempt: nat, s: Progress): (Progress, Option<Result>) {
    var (end, outcome) := RunAttempt(c, env.work(attempt), s.now, Deadline(c, t0));
    var s1 := s.(calls := s.calls + [Call(attempt, s.now, end, outcome)], now := end);
    match outcome
    case Value(value) => (s1, Some(Resolved(value)))
    case Failed(failure) =>
      (s1.(last := Some(failure)),
       if failure == TotalTimeout then Some(BudgetSpent)
       else if !env.retryable(failure) then Some(Exhausted(Some(failure), attempt + 1))
       else None)
  }

  /** One iteration of the loop. */
  function Iteration(c: Config, env: Environment, t0: int, attempt: nat, s: Progress): (Progress, Option<Result>)
    requires attempt > 0 ==> s.last.Some?
  {
    var (s1, v) := if attempt > 0 then BackedOff(c, env, t0, attempt, s) else (s, Proceed);
    match v
    case End(result) => (s1, Some(result))
    case PassOver => (s1, None)
    case Proceed =>
      if TooLate(Deadline(c, t0), s1.now, 0) then (s1, Some(BudgetSpent)) else Attempted(c, env, t0, attempt, s1)
  }

  /** The run from attempt `attempt` on. */
  function Run(c: Config, env: Environment, t0: int, attempt: nat, s: Progress): Report
    requires attempt > 0 ==> s.last.Some?
    decreases Max(0, c.maxRetries + 1 - attempt)
  {
    if attempt > c.maxRetries then Stopped(s, Exhausted(s.last, attempt))
    else
      var (s1, done) := Iteration(c, env, t0, attempt, s);
      if done.Some? then Stopped(s1, done.value) else Run(c, env, t0, attempt + 1, s1)
  }

  function Start(t0: int): Progress { Progress(t0, None, [], []) }

  /** `withRetry`, started at time `t0`. */
  method WithRetry(c: Config, env: Environment, t0: int) returns (r: Report)
    ensures r == Run(c, env, t0, 0, Start(t0))
  {
    var deadline := Deadline(c, t0);
    var s := Start(t0);
    var attempts := 0;
    var attempt := 0;
    while attempt <= c.maxRetries
      invariant attempts == attempt && (attempt > 0 ==> s.last.Some?)
      invariant Run(c, env, t0, 0, Start(t0)) == Run(c, env, t0, attempt, s)
      decreases c.maxRetries + 1 - attempt
    {
      attempts := attempt + 1;
      if attempt > 0 {
        var v;
        s, v := BackOff(c, env, t0, attempt, s);
        match v {
          case End(result) => return Stopped(s, result);
          case PassOver =>
            attempt := attempt + 1;
            continue;
          case Proceed =>
        }
      }

      if TooLate(deadline, s.now, 0) {
        return Stopped(s, BudgetSpent);
      }

      var (end, outcome) := RunAttempt(c, env.work(attempt), s.now, deadline);
      s := s.(calls := s.calls + [Call(attempt, s.now, end, outcome)], now := end);
      match outcome {
        case Value(value) => return Stopped(s, Resolved(value));
        case Failed(failure) =>
          s := s.(last := Some(failure));
          if failure == TotalTimeout {
            return Stopped(s, BudgetSpent);
          }
          if !env.retryable(failure) {
            return Stopped(s, Exhausted(s.last, attempts));
          }
      }
      attempt := attempt + 1;
    }
    r := Stopped(s, Exhausted(s.last, attempts));
  }

  method BackOff(c: Config, env: Environment, t0: int, attempt: nat, s: Progress) returns (s': Progress, v: Verdict)
    requires attempt > 0 && s.last.Some?
    ensures (s', v) == BackedOff(c, env, t0, attempt, s)
  {
    var delay := ResolveDelayMs(attempt - 1, c, env, s.last.value);
    if TooLate(Deadline(c, t0), s.now, delay) {
      if env.retryAfterMs(s.last.value).Some? {
        return s, End(Exhausted(s.last, attempt + 1));
      }
      return s, End(BudgetSpent);
    }
    s' := s.(now := s.now + Max(0, delay) + env.oversleep(attempt), sleeps := s.sleeps + [delay]);
    var (decision, took) := env.guard(attempt);
    s' := s'.(now := s'.now + took);
    match decision {
      case Stop(value) => v := End(Resolved(value));
      case Skip => v := PassOver;
      case Go => v := Proceed;
    }
  }

  // ----- what every run guarantees -----

  predicate LastOk(env: Environment, s: Progress) {
    if s.calls == [] then s.last == None
    else Retried(env, Last(s.calls)) && s.last == Some(Last(s.calls).outcome.failure)
  }

  predicate OnTime(c: Config, t0: int, now: int) { c.totalTimeoutMs.Some? ==> now <= Max(t0, t0 + c.totalTimeoutMs.value) }

  /** What holds before attempt `attempt`. */
  ghost predicate Inv(c: Config, env: Environment, t0: int, attempt: nat, s: Progress) {
    && attempt <= Max(0, c.maxRetries + 1) && t0 <= s.now
    && CallsOk(c, env, t0, s.calls) && Before(s.calls, attempt, s.now) && LastOk(env, s)
    && (attempt > 0 ==> s.calls != []) && SkippedSince(env, s.calls, attempt)
    && SleepsOk(c, env, s.calls, s.sleeps) && |s.sleeps| == Max(0, attempt - 1)
    && (c.attemptTimeoutMs.Some? && Exact(env) ==> OnTime(c, t0, s.now))
  }

  /** What holds of a report: its calls and sleeps are as they should be, it ends for a reason, and with
      both timeouts and exact timers it ends by the deadline. */
  ghost predicate ReportOk(c: Config, env: Environment, t0: int, r: Report) {
    && CallsOk(c, env, t0, r.calls) && Before(r.calls, c.maxRetries + 1, r.end)
    && SleepsOk(c, env, r.calls, r.sleeps) && |r.sleeps| <= Max(0, c.maxRetries)
    && ResultOk(c, env, t0, r)
    && (c.attemptTimeoutMs.Some? && Exact(env) ==> OnTime(c, t0, r.end))
  }

  /** Backing off keeps the calls, and the new sleep is the delay for the last failure. */
  lemma BackedOffOk(c: Config, env: Environment, t0: int, attempt: nat, s: Progress)
    requires 0 < attempt <= c.maxRetries && Inv(c, env, t0, attempt, s)
    ensures var (s1, v) := BackedOff(c, env, t0, attempt, s);
            && s1.calls == s.calls && s1.last == s.last && s1.now >= s.now
            && SleepsOk(c, env, s1.calls, s1.sleeps) && |s1.sleeps| <= attempt && (!v.End? ==> |s1.sleeps| == attempt)
            && (Exact(env) && OnTime(c, t0, s.now) ==> OnTime(c, t0, s1.now))
            && (v.PassOver? ==> env.guard(attempt).0 == Skip)
  {
    var delay := ResolveDelayMs(attempt - 1, c, env, s.last.value);
    NextSleep(c, env, s.calls, s.sleeps, s.last.value);
    assert env.guard(attempt).1 >= 0 && env.oversleep(attempt) >= 0;
  }

  lemma BackedOffEnds(c: Config, env: Environment, t0: int, attempt: nat, s: Progress)
    requires 0 < attempt <= c.maxRetries && Inv(c, env, t0, attempt, s) && BackedOff(c, env, t0, attempt, s).1.End?
    ensures ResultOk(c, env, t0, Stopped(BackedOff(c, env, t0, attempt, s).0, BackedOff(c, env, t0, attempt, s).1.result))
  {
    var r := Stopped(BackedOff(c, env, t0, attempt, s).0, BackedOff(c, env, t0, attempt, s).1.result);
    if TooLate(Deadline(c, t0), s.now, ResolveDelayMs(attempt - 1, c, env, s.last.value)) {
      assert NextPauseTooLong(c, env, t0, r, s.last.value, attempt);
    }
  }

  lemma AttemptedOk(c: Config, env: Environment, t0: int, attempt: nat, s: Progress)
    requires attempt <= c.maxRetries && t0 <= s.now && !TooLate(Deadline(c, t0), s.now, 0)
    requires CallsOk(c, env, t0, s.calls) && Before(s.calls, attempt, s.now) && LastOk(env, s)
    ensures var (s1, done) := Attempted(c, env, t0, attempt, s);
            && CallsOk(c, env, t0, s1.calls) && Before(s1.calls, attempt + 1, s1.now) && s.now <= s1.now
            && s1.calls != [] && s1.sleeps == s.sleeps && SkippedSince(env, s1.calls, attempt + 1)
            && (c.attemptTimeoutMs.Some? ==> OnTime(c, t0, s1.now))
            && (done.None? ==> LastOk(env, s1))
            && (done.Some? ==> ResultOk(c, env, t0, Stopped(s1, done.value)))
  {
    var (end, outcome) := RunAttempt(c, env.work(attempt), s.now, Deadline(c, t0));
    var call := Call(attempt, s.now, end, outcome);
    AttemptOnTime(c, env.work(attempt), t0, s.now);
    AppendCall(c, env, t0, s.calls, call, attempt, s.now);
    LastOfAppend(s.calls, call);
  }

  lemma LastOfAppend<T>(s: seq<T>, x: T)
    ensures s + [x] != [] && Last(s + [x]) == x
  {
  }

  /** The state in which attempt `attempt` calls the operation. */
  ghost predicate Ready(c: Config, env: Environment, t0: int, attempt: nat, s: Progress) {
    && attempt <= c.maxRetries && t0 <= s.now
    && CallsOk(c, env, t0, s.calls) && Before(s.calls, attempt, s.now) && LastOk(env, s)
    && SleepsOk(c, env, s.calls, s.sleeps) && |s.sleeps| == attempt
    && (c.attemptTimeoutMs.Some? && Exact(env) ==> OnTime(c, t0, s.now))
  }

  lemma BackedOffIsReady(c: Config, env: Environment, t0: int, attempt: nat, s: Progress)
    requires 0 < attempt <= c.maxRetries && Inv(c, env, t0, attempt, s)
    ensures var (s1, v) := BackedOff(c, env, t0, attempt, s);
            && (v.End? ==> ReportOk(c, env, t0, Stopped(s1, v.result)))
            && (v.PassOver? ==> Inv(c, env, t0, attempt + 1, s1))
            && (v.Proceed? ==> Ready(c, env, t0, attempt, s1))
  {
    BackedOffOk(c, env, t0, attempt, s);
    if BackedOff(c, env, t0, attempt, s).1.End? {
      BackedOffEnds(c, env, t0, attempt, s);
    }
  }

  lemma ReadyToInv(c: Config, env: Environment, t0: int, attempt: nat, s: Progress)
    requires Ready(c, env, t0, attempt, s)
    ensures TooLate(Deadline(c, t0), s.now, 0) ==> ReportOk(c, env, t0, Stopped(s, BudgetSpent))
    ensures !TooLate(Deadline(c, t0), s.now, 0) ==>
              var (s1, done) := Attempted(c, env, t0, attempt, s);
              if done.Some? then ReportOk(c, env, t0, Stopped(s1, done.value)) else Inv(c, env, t0, attempt + 1, s1)
  {
    if !TooLate(Deadline(c, t0), s.now, 0) {
      AttemptedOk(c, env, t0, attempt, s);
      SleepsStay(c, env, s.calls, s.sleeps, Last(Attempted(c, env, t0, attempt, s).0.calls));
      AttemptedCall(c, env, t0, attempt, s);
    }
  }

  lemma AttemptedCall(c: Config, env: Environment, t0: int, attempt: nat, s: Progress)
    ensures var calls := Attempted(c, env, t0, attempt, s).0.calls;
            calls != [] && calls == s.calls + [Last(calls)] && Last(calls).attempt == attempt
  {
  }

  lemma LastAttemptOk(c: Config, env: Environment, t0: int, attempt: nat, s: Progress)
    requires Inv(c, env, t0, attempt, s) && attempt > c.maxRetries
    ensures ReportOk(c, env, t0, Stopped(s, Exhausted(s.last, attempt)))
  {
  }

  lemma IterationIsOk(c: Config, env: Environment, t0: int, attempt: nat, s: Progress)
    requires Inv(c, env, t0, attempt, s) && attempt <= c.maxRetries
    ensures var (s1, done) := Iteration(c, env, t0, attempt, s);
            if done.Some? then ReportOk(c, env, t0, Stopped(s1, done.value)) else Inv(c, env, t0, attempt + 1, s1)
  {
    var (s1, v) := if attempt > 0 then BackedOff(c, env, t0, attempt, s) else (s, Proceed);
    if attempt > 0 {
      BackedOffIsReady(c, env, t0, attempt, s);
    } else {
      assert Ready(c, env, t0, attempt, s);
    }
    if v.Proceed? {
      ReadyToInv(c, env, t0, attempt, s1);
    }
  }

  lemma {:induction false} RunIsOk(c: Config, env: Environment, t0: int, attempt: nat, s: Progress)
    requires Inv(c, env, t0, attempt, s)
    ensures ReportOk(c, env, t0, Run(c, env, t0, attempt, s))
    decreases Max(0, c.maxRetries + 1 - attempt)
  {
    if attempt > c.maxRetries {
      LastAttemptOk(c, env, t0, attempt, s);
    } else {
      IterationIsOk(c, env, t0, attempt, s);
      var (s1, done) := Iteration(c, env, t0, attempt, s);
      if done.None? {
        RunIsOk(c, env, t0, attempt + 1, s1);
      }
    }
  }

  /** Every run of `withRetry`: at most maxRetries + 1 calls, each starting strictly before the deadline and
      only after retryable failures; each sleep is the pause that the last failure before it calls for; it ends for one of the documented reasons; and with a per-attempt
      timeout, no guard and exact timers it settles by the deadline. */
  lemma WithRetryIsOk(c: Config, env: Environment, t0: int)
    ensures var r := Run(c, env, t0, 0, Start(t0));
            && ReportOk(c, env, t0, r)
            && |r.calls| <= Max(0, c.maxRetries + 1)
            && (forall i | 0 <= i < |r.calls| :: r.calls[i].attempt <= c.maxRetries && r.calls[i].end <= r.end)
  {
    RunIsOk(c, env, t0, 0, Start(t0));
    var r := Run(c, env, t0, 0, Start(t0));
    CallsAreFew(c, env, t0, r.calls, r.end);
  }

  /** A timed attempt that starts before the deadline ends by it. */
  lemma AttemptOnTime(c: Config, w: Work, t0: int, now: int)
    requires t0 <= now && !TooLate(Deadline(c, t0), now, 0)
    ensures RunAttempt(c, w, now, Deadline(c, t0)).0 >= now
    ensures c.attemptTimeoutMs.Some? ==> OnTime(c, t0, RunAttempt(c, w, now, Deadline(c, t0)).0)
  {
  }

  /** When and how a timed attempt ends, without a tie: as the operation does if that comes before its
      allowance is spent, and else by its timer; the timer reports the total timeout exactly if less of the
      budget was left than an attempt may take. */
  lemma TimedAttempt(c: Config, w: Work, now: int, deadline: Option<int>)
    requires c.attemptTimeoutMs.Some?
    ensures var limit := c.attemptTimeoutMs.value;
            var short := deadline.Some? && deadline.value - now < limit;
            var allowed := if short then deadline.value - now else limit;
            var timedOut := (now + Max(0, allowed), Failed(if short then TotalTimeout else AttemptTimeout));
            && (w.duration < allowed ==> RunAttempt(c, w, now, deadline) == (now + w.duration, w.outcome))
            && (w.duration > allowed && w.duration > 0 ==> RunAttempt(c, w, now, deadline) == timedOut)
            && (w.duration == allowed ==>
                  RunAttempt(c, w, now, deadline) == if w.winsTie then (now + w.duration, w.outcome) else timedOut)
  {
  }

  function Deadline(c: Config, t0: int): Option<int> {
    if c.totalTimeoutMs == None then None else Some(t0 + c.totalTimeoutMs.value)
  }

  // ----- the delay curve -----

  /** A full-jitter draw lies in [0, ceiling) if and only if the ceiling is positive; a draw is then never
      negative either way. */
  lemma FullJitterRange(ceiling: int, r: real)
    requires 0.0 <= r < 1.0
    ensures 0 <= JitteredDelayMs(ceiling, r) <= Max(0, ceiling)
    ensures 0 <= JitteredDelayMs(ceiling, r) < ceiling <==> ceiling > 0
  {
    var x := r * Max(0, ceiling) as real;
    if ceiling > 0 {
      assert x < ceiling as real;
    } else {
      assert x == 0.0;
    }
  }

  /** An equal-jitter draw lies in [half, ceiling) if and only if the ceiling is positive. */
  lemma EqualJitterRange(attempt: nat, c: Config, r: real)
    requires c.jitter == Equal && 0.0 <= r < 1.0
    ensures var ceiling := Ceiling(attempt, c);
            ceiling / 2 <= ComputeDelayMs(attempt, c, r) < ceiling <==> ceiling > 0
  {
    var ceiling := Ceiling(attempt, c);
    FullJitterRange(ceiling - ceiling / 2, r);
  }

  lemma {:induction false} Pow2Grows(n: nat)
    ensures Pow2(n) >= n + 1 && Pow2(n) >= 1
  {
    if n > 0 {
      Pow2Grows(n - 1);
    }
  }

  /** Exponential ceilings never decrease if and only if the base is not negative. */
  lemma CeilingsGrowIff(c: Config)
    requires c.backoff == Exponential
    ensures (forall n: nat :: Ceiling(n, c) <= Ceiling(n + 1, c)) <==> c.baseDelayMs >= 0
  {
    if c.baseDelayMs >= 0 {
      forall n: nat ensures Ceiling(n, c) <= Ceiling(n + 1, c) {
        CeilingStep(n, c);
      }
    } else {
      var n: nat := if c.maxDelayMs < 0 then -c.maxDelayMs else 0;
      Pow2Grows(n);
      Pow2Grows(n + 1);
      ScaleNegative(c.baseDelayMs, Pow2(n));
      assert c.baseDelayMs * Pow2(n + 1) == 2 * (c.baseDelayMs * Pow2(n)) by { Double(c.baseDelayMs, Pow2(n)); }
      assert Ceiling(n + 1, c) < Ceiling(n, c);
    }
  }

  lemma Double(a: int, b: int)
    ensures a * (2 * b) == 2 * (a * b)
  {
  }

  lemma ScaleNegative(a: int, b: int)
    requires a < 0 && b >= 1
    ensures a * b <= -b
  {
  }

  lemma CeilingStep(n: nat, c: Config)
    requires c.backoff == Exponential && c.baseDelayMs >= 0
    ensures Ceiling(n, c) <= Ceiling(n + 1, c)
    ensures 0 <= c.baseDelayMs * Pow2(n)
  {
    Pow2Grows(n);
    Double(c.baseDelayMs, Pow2(n));
    NonNegative(c.baseDelayMs, Pow2(n));
  }

  lemma NonNegative(a: int, b: int)
    requires a >= 0 && b >= 0
    ensures a * b >= 0
  {
  }

  function Total(sleeps: seq<int>): int {
    if sleeps == [] then 0 else Total(Front(sleeps)) + Last(sleeps)
  }

  /** What the curve adds up to over the first `n` delays. */
  function CurveTotal(c: Config, n: nat): int { if n == 0 then 0 else CurveTotal(c, n - 1) + Curve(c, n - 1) }

  lemma {:induction false} CurveTotals(c: Config, n: nat)
    ensures match c.backoff
            case Exponential => CurveTotal(c, n) == c.baseDelayMs * (Pow2(n) - 1)
            case Linear => 2 * CurveTotal(c, n) == c.baseDelayMs * (n * (n + 1))
            case Fixed => CurveTotal(c, n) == c.baseDelayMs * n
  {
    if n > 0 {
      CurveTotals(c, n - 1);
      Distribute(c.baseDelayMs, Pow2(n - 1));
      Triangle(c.baseDelayMs, n);
    }
  }

  lemma Triangle(a: int, n: nat)
    requires n > 0
    ensures a * ((n - 1) * n) + 2 * (a * n) == a * (n * (n + 1))
    ensures a * (n - 1) + a == a * n
  {
    assert (n - 1) * n + 2 * n == n * (n + 1);
    assert a * ((n - 1) * n + 2 * n) == a * ((n - 1) * n) + a * (2 * n);
  }

  /** The backoff of a whole run without Retry-After is bounded both by the cap per delay and by what the
      curve adds up to. */
  lemma {:induction false} TotalBackoffBound(c: Config, env: Environment, calls: seq<Call>, sleeps: seq<int>)
    requires c.baseDelayMs >= 0 && c.maxDelayMs >= 0 && FairDraws(env)
    requires c.retryAfter == Ignore || forall f :: env.retryAfterMs(f) == None
    requires SleepsOk(c, env, calls, sleeps)
    ensures 0 <= Total(sleeps) <= Min(|sleeps| * c.maxDelayMs, CurveTotal(c, |sleeps|))
  {
    if sleeps != [] {
      var n := |sleeps| - 1;
      TotalBackoffBound(c, env, calls, Front(sleeps));
      SleepIsBounded(c, env, calls, n, sleeps[n]);
      OneMore(n, c.maxDelayMs);
    }
  }

  lemma OneMore(n: nat, a: int)
    ensures (n + 1) * a == n * a + a
  {
  }

  lemma SleepIsBounded(c: Config, env: Environment, calls: seq<Call>, k: nat, delay: int)
    requires c.baseDelayMs >= 0 && c.maxDelayMs >= 0 && FairDraws(env)
    requires c.retryAfter == Ignore || forall f :: env.retryAfterMs(f) == None
    requires SleepOk(c, env, calls, k, delay)
    ensures 0 <= delay <= Min(c.maxDelayMs, Curve(c, k))
  {
    OnCurveIsBounded(c, k, env.draw(k), delay);
  }

  /** The draw scaled to a positive `top` stays below it. */
  lemma Scaled(draw: real, top: real, y: real)
    requires 0.0 <= draw < 1.0 && top > 0.0 && y == draw * top
    ensures 0.0 <= y < top
  {
    assert (1.0 - draw) * top > 0.0;
    assert (1.0 - draw) * top == top - y;
  }

  lemma WholePartBounds(x: int, y: real, top: int)
    requires WholePart(x, y) && 0.0 <= y < top as real
    ensures 0 <= x < top
  {
  }

  lemma DrawIsBounded(x: int, draw: real, top: int)
    requires IsDraw(x, draw, top) && 0.0 <= draw < 1.0
    ensures 0 <= x <= Max(0, top)
  {
    if top > 0 {
      var y := draw * top as real;
      Scaled(draw, top as real, y);
      WholePartBounds(x, y, top);
    }
  }

  lemma OnCurveIsBounded(c: Config, k: nat, draw: real, delay: int)
    requires OnCurve(c, k, draw, delay) && 0.0 <= draw < 1.0
    ensures delay <= Max(0, c.maxDelayMs)
    ensures c.baseDelayMs >= 0 && c.maxDelayMs >= 0 ==> 0 <= delay <= Curve(c, k)
  {
    var top := if Curve(c, k) < c.maxDelayMs then Curve(c, k) else c.maxDelayMs;
    match c.jitter {
      case NoJitter =>
      case Full => DrawIsBounded(delay, draw, top);
      case Equal => DrawIsBounded(delay - top / 2, draw, top - top / 2);
    }
    CurveNotNegative(c, k);
  }

  lemma CurveNotNegative(c: Config, k: nat)
    ensures c.baseDelayMs >= 0 ==> Curve(c, k) >= 0
  {
    if c.baseDelayMs >= 0 {
      Pow2Grows(k);
      NonNegative(c.baseDelayMs, Pow2(k));
      NonNegative(c.baseDelayMs, k + 1);
    }
  }

  /** Under `cap` and `ignore` no sleep of a run exceeds the cap, whatever peers ask for and for every
      backoff and jitter; under `strict` one does only when the peer has asked for exactly that. */
  lemma SleepsAreCapped(c: Config, env: Environment, t0: int, k: nat)
    requires FairDraws(env)
    requires k < |Run(c, env, t0, 0, Start(t0)).sleeps|
    ensures var r := Run(c, env, t0, 0, Start(t0));
            r.sleeps[k] > Max(0, c.maxDelayMs) ==>
              c.retryAfter == Strict && exists i | 0 <= i < |r.calls| ::
                LastBefore(r.calls, i, k) && r.calls[i].outcome.Failed?
                && env.retryAfterMs(r.calls[i].outcome.failure) == Some(r.sleeps[k])
  {
    RunIsOk(c, env, t0, 0, Start(t0));
    var r := Run(c, env, t0, 0, Start(t0));
    assert SleepOk(c, env, r.calls, k, r.sleeps[k]);
    var i :| 0 <= i < |r.calls| && LastBefore(r.calls, i, k) && r.calls[i].outcome.Failed?
             && PauseOk(c, k, env.draw(k), env.retryAfterMs(r.calls[i].outcome.failure), r.sleeps[k]);
    if OnCurve(c, k, env.draw(k), r.sleeps[k]) {
      OnCurveIsBounded(c, k, env.draw(k), r.sleeps[k]);
    }
  }

  lemma Distribute(a: int, b: int)
    ensures a * (2 * b - 1) == a * (b - 1) + a * b
  {
  }
}
