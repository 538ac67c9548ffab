/**
  The Redis circuit breaker of `backend/src/cache/circuitBreaker.ts`. `Date.now()` is a parameter; times are
  reals in milliseconds.
 */
module CircuitBreaker {
  import opened Sequences
  import opened Wrappers

  const MULTIPLIER := 1500.0
  const MAX_BACKOFF := 300000.0

  datatype Options = Options(failureThreshold: int, resetTimeout: real, halfOpenSuccessThreshold: Option<int>) {
    function HalfOpenThreshold(): int {
      if halfOpenSuccessThreshold.Some? then halfOpenSuccessThreshold.value else 1
    }

    /** The failure count with which a closed circuit opens. */
    function TripCount(): nat {
      if failureThreshold < 1 then 1 else failureThreshold
    }
  }

  datatype Phase = Closed | Open | HalfOpen

  datatype Circuit = Circuit(
    phase: Phase,
    failureCount: nat,
    totalFailures: nat,
    totalSuccesses: nat,
    openedAt: Option<real>,
    halfOpenSuccesses: nat)

  const INITIAL := Circuit(Closed, 0, 0, 0, None, 0)

  function Pow(base: real, n: nat): real {
    if n == 0 then 1.0 else base * Pow(base, n - 1)
  }

  function Min(x: real, y: real): real { if x <= y then x else y }

  /** `calculateHalfOpenBackoff`; its exponent is -1 when the count is zero. */
  function Backoff(failures: nat, base: real): real {
    var exponent := if failures - 1 < 5 then failures - 1 else 5;
    Min(if exponent < 0 then base / MULTIPLIER else base * Pow(MULTIPLIER, exponent), MAX_BACKOFF)
  }

  // ----- the methods as functions of the state -----

  function Attempt(o: Options, c: Circuit, now: real): (Circuit, bool) {
    match c.phase
    case Closed => (c, true)
    case Open =>
      var since := if c.openedAt.Some? then c.openedAt.value else 0.0;
      if now - since >= Backoff(c.failureCount, o.resetTimeout) then
        (c.(phase := HalfOpen, halfOpenSuccesses := 0), true)
      else (c, false)
    case HalfOpen => (c, c.halfOpenSuccesses < o.HalfOpenThreshold())
  }

  function Reset(c: Circuit): Circuit {
    c.(phase := Closed, failureCount := 0, openedAt := None, halfOpenSuccesses := 0)
  }

  function Succeed(o: Options, c: Circuit): Circuit {
    var d := c.(totalSuccesses := c.totalSuccesses + 1);
    if c.phase.HalfOpen? then
      if c.halfOpenSuccesses + 1 >= o.HalfOpenThreshold() then Reset(d)
      else d.(halfOpenSuccesses := c.halfOpenSuccesses + 1)
    else d.(failureCount := 0)
  }

  function Fail(o: Options, c: Circuit, now: real): Circuit {
    var d := c.(totalFailures := c.totalFailures + 1);
    match c.phase
    case HalfOpen => d.(phase := Open, openedAt := Some(now), halfOpenSuccesses := 0)
    case Open => d
    case Closed =>
      var n := c.failureCount + 1;
      if n >= o.failureThreshold then d.(failureCount := n, phase := Open, openedAt := Some(now))
      else d.(failureCount := n)
  }

  class RedisCircuitBreaker {
    const options: Options
    var state: Phase
    var failureCount: nat
    var totalFailures: nat
    var totalSuccesses: nat
    var openedAt: Option<real>
    var halfOpenSuccesses: nat

    function View(): Circuit
      reads this
    {
      Circuit(state, failureCount, totalFailures, totalSuccesses, openedAt, halfOpenSuccesses)
    }

    constructor (o: Options)
      ensures options == o && View() == INITIAL
    {
      options := o;
      state, failureCount, totalFailures, totalSuccesses, openedAt, halfOpenSuccesses := Closed, 0, 0, 0, None, 0;
    }

    method CanAttempt(now: real) returns (pass: bool)
      modifies this
      ensures (View(), pass) == Attempt(options, old(View()), now)
    {
      if state.Closed? {
        return true;
      }
      if state.Open? {
        var elapsed := now - (if openedAt.Some? then openedAt.value else 0.0);
        var backoff := Backoff(failureCount, options.resetTimeout);
        if elapsed >= backoff {
          state := HalfOpen;
          halfOpenSuccesses := 0;
          return true;
        }
        return false;
      }
      return halfOpenSuccesses < options.HalfOpenThreshold();
    }

    method RecordSuccess()
      modifies this
      ensures View() == Succeed(options, old(View()))
    {
      totalSuccesses := totalSuccesses + 1;
      if state.HalfOpen? {
        halfOpenSuccesses := halfOpenSuccesses + 1;
        if halfOpenSuccesses >= options.HalfOpenThreshold() {
          ResetAll();
        }
      } else {
        failureCount := 0;
      }
    }

    method RecordFailure(now: real)
      modifies this
      ensures View() == Fail(options, old(View()), now)
    {
      totalFailures := totalFailures + 1;
      if state.HalfOpen? {
        state := Open;
        openedAt := Some(now);
        halfOpenSuccesses := 0;
        return;
      }
      if state.Closed? {
        failureCount := failureCount + 1;
        if failureCount >= options.failureThreshold {
          state := Open;
          openedAt := Some(now);
        }
      }
    }

    method ResetAll()
      modifies this
      ensures View() == Reset(old(View()))
    {
      state := Closed;
      failureCount := 0;
      openedAt := None;
      halfOpenSuccesses := 0;
    }
  }

  // ----- runs -----

  datatype Call = CanAttempt(now: real) | RecordSuccess | RecordFailure(now: real) | ResetAll

  function Step(o: Options, c: Circuit, call: Call): Circuit {
    match call
    case CanAttempt(now) => Attempt(o, c, now).0
    case RecordSuccess => Succeed(o, c)
    case RecordFailure(now) => Fail(o, c, now)
    case ResetAll => Reset(c)
  }

  function After(o: Options, calls: seq<Call>): Circuit {
    if calls == [] then INITIAL else Step(o, After(o, Front(calls)), Last(calls))
  }

  // ----- what the fields mean, in terms of the calls alone -----

  function Count(calls: seq<Call>, p: Call -> bool): nat {
    if calls == [] then 0 else Count(Front(calls), p) + if p(Last(calls)) then 1 else 0
  }

  /** Failures since the last success or reset. */
  function FailuresSince(calls: seq<Call>): nat {
    if calls == [] then 0
    else
      match Last(calls)
      case CanAttempt(_) => FailuresSince(Front(calls))
      case RecordFailure(_) => FailuresSince(Front(calls)) + 1
      case _ => 0
  }

  /** When the circuit last went from closed or half open to open, if it has not closed since. */
  function OpeningTime(o: Options, calls: seq<Call>): Option<real> {
    if calls == [] || After(o, calls).phase.Closed? then None
    else if Last(calls).RecordFailure? && !After(o, Front(calls)).phase.Open? then Some(Last(calls).now)
    else OpeningTime(o, Front(calls))
  }

  /** A success was recorded while the circuit was open, and it has not closed since. */
  predicate SuccessWhileOpen(o: Options, calls: seq<Call>) {
    calls != [] && !After(o, calls).phase.Closed? &&
    ((Last(calls).RecordSuccess? && After(o, Front(calls)).phase.Open?) || SuccessWhileOpen(o, Front(calls)))
  }

  /** Successes since the circuit became half open. */
  function ProbeSuccesses(o: Options, calls: seq<Call>): nat {
    if calls == [] || !After(o, calls).phase.HalfOpen? || !After(o, Front(calls)).phase.HalfOpen? then 0
    else ProbeSuccesses(o, Front(calls)) + if Last(calls).RecordSuccess? then 1 else 0
  }

  /** Every field of the breaker is a function of the calls: the totals count successes and failures, a
      closed circuit counts the failures since the last success or reset, an open or half-open one holds
      the count it opened with unless a success came while it was open. */
  ghost predicate Exact(o: Options, calls: seq<Call>, c: Circuit) {
    && c.totalFailures == Count(calls, (x: Call) => x.RecordFailure?)
    && c.totalSuccesses == Count(calls, (x: Call) => x.RecordSuccess?)
    && c.openedAt == OpeningTime(o, calls)
    && (c.phase.Closed? <==> c.openedAt.None?)
    && c.halfOpenSuccesses == ProbeSuccesses(o, calls)
    && c.failureCount == (if c.phase.Closed? then FailuresSince(calls)
                          else if SuccessWhileOpen(o, calls) then 0 else o.TripCount())
  }

  /** The bounds: a closed circuit is short of its trip count, and probe successes are nonzero only while
      half open and short of their threshold. */
  ghost predicate Bounded(o: Options, c: Circuit) {
    && (c.phase.Closed? ==> c.failureCount < o.TripCount())
    && (c.halfOpenSuccesses > 0 ==> c.phase.HalfOpen? && c.halfOpenSuccesses < o.HalfOpenThreshold())
  }

  lemma {:induction false} AfterIsExact(o: Options, calls: seq<Call>)
    ensures Exact(o, calls, After(o, calls)) && Bounded(o, After(o, calls))
  {
    if calls != [] {
      AfterIsExact(o, Front(calls));
    }
  }

  /** The thresholds below which the documented bounds fail: a closed circuit has fewer failures than
      `failureThreshold`, and a half-open one fewer successes than its threshold, exactly when the
      threshold is at least one. */
  lemma BoundsHoldIff(o: Options, calls: seq<Call>)
    ensures var c := After(o, calls);
            && (c.phase.Closed? ==> (c.failureCount < o.failureThreshold <==> 1 <= o.failureThreshold))
            && (c.phase.HalfOpen? ==> (c.halfOpenSuccesses < o.HalfOpenThreshold() <==> 1 <= o.HalfOpenThreshold()))
  {
    AfterIsExact(o, calls);
  }

  /** A closed circuit opens on the failure that makes `TripCount` failures since the last success or
      reset, and on no other call. */
  lemma TripsExactly(o: Options, calls: seq<Call>, call: Call)
    requires After(o, calls).phase.Closed?
    ensures !After(o, calls + [call]).phase.Closed? <==>
              call.RecordFailure? && FailuresSince(calls) + 1 == o.TripCount()
  {
    AfterIsExact(o, calls);
    TripStep(o, After(o, calls), call);
    assert Front(calls + [call]) == calls;
  }

  lemma TripStep(o: Options, c: Circuit, call: Call)
    requires c.phase.Closed? && c.failureCount < o.TripCount()
    ensures !Step(o, c, call).phase.Closed? <==> call.RecordFailure? && c.failureCount + 1 == o.TripCount()
  {
  }

  /** And a circuit that is not closed closes on a reset, or on the success that brings the probe
      successes up to the half-open threshold. */
  lemma ClosesExactly(o: Options, calls: seq<Call>, call: Call)
    requires !After(o, calls).phase.Closed?
    ensures After(o, calls + [call]).phase.Closed? <==>
              call.ResetAll? ||
              (call.RecordSuccess? && After(o, calls).phase.HalfOpen? && ProbeSuccesses(o, calls) + 1 >= o.HalfOpenThreshold())
  {
    AfterIsExact(o, calls);
    assert Front(calls + [call]) == calls;
  }

  // ----- the backoff -----

  /** An open circuit lets a call through exactly from its opening time plus the backoff; the backoff is
      that of the trip count unless a success was recorded while the circuit was open. */
  lemma PassesIff(o: Options, calls: seq<Call>, now: real)
    requires After(o, calls).phase.Open?
    ensures OpeningTime(o, calls).Some?
    ensures Attempt(o, After(o, calls), now).1 <==>
              now >= OpeningTime(o, calls).value
                     + Backoff(if SuccessWhileOpen(o, calls) then 0 else o.TripCount(), o.resetTimeout)
  {
    AfterIsExact(o, calls);
  }

  /** `more` records no success, resets nothing, and attempts nothing before `deadline`... */
  predicate QuietUntil(more: seq<Call>, deadline: real) {
    forall call | call in more ::
      !call.RecordSuccess? && !call.ResetAll? && (call.CanAttempt? ==> call.now < deadline)
  }

  /** ...so after a circuit has opened, no call of such a continuation passes, whatever else happens. */
  lemma {:induction false} NothingPassesBeforeBackoff(o: Options, calls: seq<Call>, more: seq<Call>)
    requires After(o, calls).phase.Open? && !SuccessWhileOpen(o, calls)
    requires OpeningTime(o, calls).Some? &&
             QuietUntil(more, OpeningTime(o, calls).value + Backoff(o.TripCount(), o.resetTimeout))
    ensures After(o, calls + more).phase.Open? && !SuccessWhileOpen(o, calls + more)
    ensures OpeningTime(o, calls + more) == OpeningTime(o, calls)
    ensures forall i | 0 <= i < |more| && more[i].CanAttempt? ::
              !Attempt(o, After(o, calls + more[..i]), more[i].now).1
  {
    StaysOpen(o, calls, more);
    forall i | 0 <= i < |more| && more[i].CanAttempt?
      ensures !Attempt(o, After(o, calls + more[..i]), more[i].now).1
    {
      assert more[i] in more;
      assert forall call | call in more[..i] :: call in more;
      StaysOpen(o, calls, more[..i]);
      PassesIff(o, calls + more[..i], more[i].now);
    }
  }

  lemma {:induction false} StaysOpen(o: Options, calls: seq<Call>, more: seq<Call>)
    requires After(o, calls).phase.Open? && !SuccessWhileOpen(o, calls)
    requires OpeningTime(o, calls).Some? &&
             QuietUntil(more, OpeningTime(o, calls).value + Backoff(o.TripCount(), o.resetTimeout))
    ensures After(o, calls + more).phase.Open? && !SuccessWhileOpen(o, calls + more)
    ensures OpeningTime(o, calls + more) == OpeningTime(o, calls)
  {
    if more == [] {
      assert calls + more == calls;
    } else {
      var init := Front(more);
      assert Last(more) in more && forall call | call in init :: call in more;
      StaysOpen(o, calls, init);
      assert Front(calls + more) == calls + init && Last(calls + more) == Last(more);
      if Last(more).CanAttempt? {
        PassesIff(o, calls + init, Last(more).now);
      }
    }
  }

  /** The backoff never passes the cap, and a breaker that has been told of a success while open waits
      no longer than one that has not. */
  lemma BackoffBounds(failures: nat, base: real)
    requires base >= 0.0
    ensures 0.0 <= Backoff(0, base) <= Backoff(failures, base) <= MAX_BACKOFF
  {
    if failures > 0 {
      var e := if failures - 1 < 5 then failures - 1 else 5;
      PowAtLeastOne(e);
      assert base * Pow(MULTIPLIER, e) >= base * 1.0;
    }
  }

  lemma {:induction false} PowAtLeastOne(n: nat)
    ensures Pow(MULTIPLIER, n) >= 1.0
  {
    if n > 0 {
      PowAtLeastOne(n - 1);
    }
  }

  const DEFAULTS := Options(5, 5000.0, Some(1))

  /** With the default options the circuit stays open for the whole cap, sixty times `resetTimeoutMs`. */
  lemma DefaultBackoff()
    ensures Backoff(DEFAULTS.TripCount(), DEFAULTS.resetTimeout) == 300000.0
  {
    assert Pow(MULTIPLIER, 1) == MULTIPLIER * Pow(MULTIPLIER, 0);
    PowAtLeastOne(3);
    assert Pow(MULTIPLIER, 4) == MULTIPLIER * Pow(MULTIPLIER, 3);
    assert Pow(MULTIPLIER, 4) >= MULTIPLIER;
  }

  /** But five failures at time 0 and one success of a call that was in flight, and a call passes after
      four milliseconds: the backoff claim needs its "no success meanwhile". */
  lemma SuccessWhileOpenCutsTheBackoff()
    ensures var calls := [RecordFailure(0.0), RecordFailure(0.0), RecordFailure(0.0), RecordFailure(0.0),
                          RecordFailure(0.0), RecordSuccess];
            && OpeningTime(DEFAULTS, calls) == Some(0.0) && SuccessWhileOpen(DEFAULTS, calls)
            && Attempt(DEFAULTS, After(DEFAULTS, calls), 4.0).1
  {
    var f := RecordFailure(0.0);
    var c1 := [f];
    var c2, c3 := c1 + [f], c1 + [f] + [f];
    var c4, c5 := c3 + [f], c3 + [f] + [f];
    var c6 := c5 + [RecordSuccess];
    assert Front(c6) == c5 && Front(c5) == c4 && Front(c4) == c3 && Front(c3) == c2 && Front(c2) == c1 && Front(c1) == [];
    assert After(DEFAULTS, c1) == Circuit(Closed, 1, 1, 0, None, 0);
    assert After(DEFAULTS, c2) == Circuit(Closed, 2, 2, 0, None, 0);
    assert After(DEFAULTS, c3) == Circuit(Closed, 3, 3, 0, None, 0);
    assert After(DEFAULTS, c4) == Circuit(Closed, 4, 4, 0, None, 0);
    assert After(DEFAULTS, c5) == Circuit(Open, 5, 5, 0, Some(0.0), 0);
    assert OpeningTime(DEFAULTS, c5) == Some(0.0);
    assert c6 == [f, f, f, f, f, RecordSuccess];
  }

  /** The half-open circuit does not limit the probes in flight: attempts alone never change it, and they
      all pass. */
  lemma {:induction false} ProbesAreNotCounted(o: Options, calls: seq<Call>, more: seq<Call>)
    requires After(o, calls).phase.HalfOpen? && 1 <= o.HalfOpenThreshold()
    requires forall call | call in more :: call.CanAttempt?
    ensures After(o, calls + more) == After(o, calls)
    ensures forall now :: Attempt(o, After(o, calls + more), now).1
  {
    AfterIsExact(o, calls);
    if more == [] {
      assert calls + more == calls;
    } else {
      assert forall call | call in Front(more) :: call in more;
      ProbesAreNotCounted(o, calls, Front(more));
      assert Front(calls + more) == calls + Front(more) && Last(calls + more) == Last(more);
    }
  }

  // ----- one call, from the calls before it -----

  /** Successes that a half-open circuit needs: one if nothing else is configured. */
  function Needed(o: Options): int { match o.halfOpenSuccessThreshold case Some(n) => n case None => 1 }

  /** What `canAttempt` answers and does, in each phase. */
  lemma AttemptIff(o: Options, calls: seq<Call>, now: real)
    ensures var c := After(o, calls); var (d, pass) := Attempt(o, c, now);
            && (c.phase.Closed? ==> pass && d == c)
            && (c.phase.HalfOpen? ==> d == c && (pass <==> ProbeSuccesses(o, calls) < Needed(o)))
            && (c.phase.Open? ==>
                  && OpeningTime(o, calls).Some?
                  && (pass <==> now - OpeningTime(o, calls).value >= Backoff(if SuccessWhileOpen(o, calls) then 0 else o.TripCount(), o.resetTimeout))
                  && (pass ==> d == c.(phase := HalfOpen))
                  && (!pass ==> d == c))
  {
    AfterIsExact(o, calls);
  }

  /** The pauses of the curve, for one failure to six and more; without failures a 1500th of the base. */
  lemma BackoffValues(failures: nat, base: real)
    ensures Backoff(failures, base) ==
              var wait := if failures == 0 then base / 1500.0
                          else if failures == 1 then base
                          else if failures == 2 then base * 1500.0
                          else if failures == 3 then base * 2250000.0
                          else if failures == 4 then base * 3375000000.0
                          else if failures == 5 then base * 5062500000000.0
                          else base * 7593750000000000.0;
              if wait < 300000.0 then wait else 300000.0
  {
    PowersOf1500();
  }

  lemma PowersOf1500()
    ensures Pow(MULTIPLIER, 0) == 1.0 && Pow(MULTIPLIER, 1) == 1500.0 && Pow(MULTIPLIER, 2) == 2250000.0
    ensures Pow(MULTIPLIER, 3) == 3375000000.0 && Pow(MULTIPLIER, 4) == 5062500000000.0
    ensures Pow(MULTIPLIER, 5) == 7593750000000000.0
  {
    assert Pow(MULTIPLIER, 1) == 1500.0 * Pow(MULTIPLIER, 0);
    assert Pow(MULTIPLIER, 2) == 1500.0 * Pow(MULTIPLIER, 1);
    assert Pow(MULTIPLIER, 3) == 1500.0 * Pow(MULTIPLIER, 2);
    assert Pow(MULTIPLIER, 4) == 1500.0 * Pow(MULTIPLIER, 3);
    assert Pow(MULTIPLIER, 5) == 1500.0 * Pow(MULTIPLIER, 4);
  }

  /** A half-open circuit closes on the needed success, a single one by default. */
  lemma ProbesNeeded(o: Options, calls: seq<Call>)
    requires After(o, calls).phase.HalfOpen?
    ensures After(o, calls + [RecordSuccess]).phase.Closed? <==> ProbeSuccesses(o, calls) + 1 >= Needed(o)
  {
    ClosesExactly(o, calls, RecordSuccess);
  }
}
