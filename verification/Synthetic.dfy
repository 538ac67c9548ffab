/**
  The alert state machine of `infra/synthetic-monitor/check-synthetic.py`: `decide`, and what the main
  program stores of its result. Times are seconds and latencies milliseconds, as reals; message texts are
  not part of this model.
 */
module Synthetic {
  import opened Sequences
  import opened Wrappers

  const SAMPLE_WINDOW := 20
  const BASELINE_MIN_SAMPLES := 10

  datatype Config = Config(failAfter: int, slowFactor: real, slowFloor: real, reAlertHours: real)

  /** One probed check. `sig` is what the evaluation of a failed probe left there. */
  datatype Obs = Obs(key: string, ok: bool, latency: Option<real>, maxMs: real, sig: string)

  datatype Level = Fine | Medium | High | Critical
  datatype Cond = CondOk | CondSlow | CondFail
  datatype Reason = FirstObservation | Escalation | StatusChanged | Repeat | StillDegraded

  datatype Entry = Entry(level: Level, cond: Cond, sig: string, failures: nat, slow: nat,
                         samples: seq<real>, p50: Option<real>, lastAlert: Option<real>, lastOk: Option<real>)

  function Rank(l: Level): nat {
    match l case Fine => 0 case Medium => 1 case High => 2 case Critical => 3
  }

  // ----- median and rounding -----

  function Insert(x: real, s: seq<real>): (r: seq<real>)
    ensures |r| == |s| + 1
  {
    if s == [] || x <= s[0] then [x] + s else [s[0]] + Insert(x, s[1..])
  }

  function Sort(s: seq<real>): (r: seq<real>)
    ensures |r| == |s|
  {
    if s == [] then [] else Insert(s[0], Sort(s[1..]))
  }

  /** `statistics.median`. */
  function Median(s: seq<real>): real
    requires s != []
  {
    Middle(Sort(s))
  }

  function Middle(t: seq<real>): real
    requires t != []
  {
    var n := |t|;
    if n % 2 == 1 then t[n / 2] else (t[n / 2 - 1] + t[n / 2]) / 2.0
  }

  predicate Sorted(s: seq<real>) { forall i, j | 0 <= i < j < |s| :: s[i] <= s[j] }

  lemma {:induction false} InsertContents(x: real, s: seq<real>)
    ensures multiset(Insert(x, s)) == multiset(s) + multiset{x}
  {
    if s != [] && x > s[0] {
      InsertContents(x, s[1..]);
      assert s == [s[0]] + s[1..];
    }
  }

  lemma {:induction false} InsertSorts(x: real, s: seq<real>)
    requires Sorted(s)
    ensures Sorted(Insert(x, s))
  {
    if s != [] && x > s[0] {
      InsertSorts(x, s[1..]);
      var r := Insert(x, s[1..]);
      forall i | 0 <= i < |r| ensures s[0] <= r[i] {
        InsertContents(x, s[1..]);
        assert r[i] in multiset(r);
        assert r[i] == x || r[i] in s[1..];
      }
    }
  }

  lemma {:induction false} SortSorts(s: seq<real>)
    ensures Sorted(Sort(s)) && multiset(Sort(s)) == multiset(s)
  {
    if s != [] {
      SortSorts(s[1..]);
      InsertSorts(s[0], Sort(s[1..]));
      InsertContents(s[0], Sort(s[1..]));
      assert s == [s[0]] + s[1..];
    }
  }

  function CountAtMost(s: seq<real>, m: real): nat {
    if s == [] then 0 else CountAtMost(s[1..], m) + if s[0] <= m then 1 else 0
  }

  function CountAtLeast(s: seq<real>, m: real): nat {
    if s == [] then 0 else CountAtLeast(s[1..], m) + if s[0] >= m then 1 else 0
  }

  lemma {:induction false} InsertCounts(x: real, s: seq<real>, m: real)
    ensures CountAtMost(Insert(x, s), m) == CountAtMost(s, m) + if x <= m then 1 else 0
    ensures CountAtLeast(Insert(x, s), m) == CountAtLeast(s, m) + if x >= m then 1 else 0
  {
    if s == [] || x <= s[0] {
      assert ([x] + s)[1..] == s;
    } else {
      InsertCounts(x, s[1..], m);
      assert ([s[0]] + Insert(x, s[1..]))[1..] == Insert(x, s[1..]);
    }
  }

  lemma {:induction false} SortCounts(s: seq<real>, m: real)
    ensures CountAtMost(Sort(s), m) == CountAtMost(s, m) && CountAtLeast(Sort(s), m) == CountAtLeast(s, m)
  {
    if s != [] {
      SortCounts(s[1..], m);
      InsertCounts(s[0], Sort(s[1..]), m);
    }
  }

  lemma {:induction false} SortedCounts(t: seq<real>, m: real, k: nat)
    requires Sorted(t) && k <= |t|
    ensures (forall i | 0 <= i < k :: t[i] <= m) ==> CountAtMost(t, m) >= k
    ensures (forall i | |t| - k <= i < |t| :: t[i] >= m) ==> CountAtLeast(t, m) >= k
  {
    if t != [] {
      if k > 0 {
        SortedCounts(t[1..], m, k - 1);
      }
      if k < |t| {
        SortedCounts(t[1..], m, k);
      }
    }
  }

  /** At least half of the samples are at most the median, and at least half are at least it. */
  lemma MedianSplits(s: seq<real>)
    requires s != []
    ensures 2 * CountAtMost(s, Median(s)) >= |s| && 2 * CountAtLeast(s, Median(s)) >= |s|
  {
    SortSorts(s);
    SortCounts(s, Median(s));
    MiddleIsBetween(Sort(s));
    SortedCounts(Sort(s), Median(s), (|s| + 1) / 2);
  }

  lemma MiddleIsBetween(t: seq<real>)
    requires t != [] && Sorted(t)
    ensures forall i | 0 <= i < (|t| + 1) / 2 :: t[i] <= Middle(t)
    ensures forall i | |t| - (|t| + 1) / 2 <= i < |t| :: t[i] >= Middle(t)
  {
    var n := |t|;
    if n % 2 == 0 {
      assert t[n / 2 - 1] <= t[n / 2];
    }
  }

  /** `round(x, 1)`: the nearest tenth, ties to even. */
  function Round1(x: real): real {
    var y := x * 10.0;
    var f := y.Floor;
    var d := y - f as real;
    (if d < 0.5 || (d == 0.5 && f % 2 == 0) then f else f + 1) as real / 10.0
  }

  function LastN<T>(s: seq<T>, n: nat): seq<T> {
    if |s| <= n then s else s[|s| - n..]
  }

  // ----- one observation -----

  /** The latency test of an ok observation, against the samples before it. */
  predicate SlowAgainst(cfg: Config, obs: Obs, samples: seq<real>, p50: Option<real>) {
    obs.latency.Some? && (Over(obs) || OverBaseline(cfg, obs, samples, p50))
  }

  predicate Over(obs: Obs) { obs.latency.Some? && obs.latency.value > obs.maxMs }

  predicate OverBaseline(cfg: Config, obs: Obs, samples: seq<real>, p50: Option<real>) {
    && |samples| >= BASELINE_MIN_SAMPLES
    && p50.Some? && p50.value != 0.0
    && obs.latency.Some?
    && obs.latency.value > cfg.slowFactor * p50.value
    && obs.latency.value > cfg.slowFloor
  }

  /** The new entry before `last_alert` is settled. */
  function Judge(cfg: Config, prev: Option<Entry>, obs: Obs, now: real): Entry {
    var samples := if prev.Some? then prev.value.samples else [];
    var p50 := if prev.Some? then prev.value.p50 else None;
    var failures := if prev.Some? then prev.value.failures else 0;
    var slow := if prev.Some? then prev.value.slow else 0;
    var lastAlert := if prev.Some? then prev.value.lastAlert else None;
    if obs.ok then
      var isSlow := SlowAgainst(cfg, obs, samples, p50);
      var runs := if isSlow then slow + 1 else 0;
      var kept := if obs.latency.Some? then LastN(samples + [Round1(obs.latency.value)], SAMPLE_WINDOW) else samples;
      Entry(if !isSlow then Fine else if runs >= cfg.failAfter then High else Medium,
            if isSlow then CondSlow else CondOk,
            if !isSlow then "ok" else if Over(obs) then "slow:slo" else "slow:baseline",
            0, runs, kept, if kept == [] then None else Some(Median(kept)), lastAlert, Some(now))
    else
      Entry(if failures + 1 >= cfg.failAfter then Critical else Medium, CondFail, obs.sig,
            failures + 1, 0, samples, p50, lastAlert, if prev.Some? then prev.value.lastOk else None)
  }

  predicate Changed(prev: Entry, cur: Entry) {
    cur.cond != prev.cond || (!cur.cond.CondOk? && cur.sig != prev.sig)
  }

  /** Whether an observation alerts, and why. */
  function AlertReason(cfg: Config, prev: Option<Entry>, cur: Entry, now: real): Option<Reason> {
    var rank := Rank(cur.level);
    if prev.None? then if rank > 0 then Some(FirstObservation) else None
    else
      var before := Rank(prev.value.level);
      if rank > before then Some(Escalation)
      else if rank < before then None
      else if Changed(prev.value, cur) && rank > 0 then Some(StatusChanged)
      else if rank >= Rank(High) && cfg.reAlertHours > 0.0 then
        match prev.value.lastAlert
        case Some(last) => if now - last >= cfg.reAlertHours * 3600.0 then Some(Repeat) else None
        case None => Some(StillDegraded)
      else None
  }

  predicate Recovers(prev: Option<Entry>, cur: Entry) {
    prev.Some? && Rank(cur.level) < Rank(prev.value.level)
  }

  /** The entry that is stored. */
  function Decided(cfg: Config, prev: Option<Entry>, obs: Obs, now: real): Entry {
    var cur := Judge(cfg, prev, obs, now);
    cur.(lastAlert :=
      if AlertReason(cfg, prev, cur, now).Some? then Some(now)
      else if Recovers(prev, cur) then None
      else cur.lastAlert)
  }

  // ----- one run over a list of observations -----

  type Checks = map<string, Entry>

  function Find(m: Checks, key: string): Option<Entry> { if key in m then Some(m[key]) else None }

  function NewChecks(cfg: Config, list: seq<Obs>, state: Checks, now: real): Checks {
    if list == [] then map[]
    else
      var obs := Last(list);
      NewChecks(cfg, Front(list), state, now)[obs.key := Decided(cfg, Find(state, obs.key), obs, now)]
  }

  function Alerts(cfg: Config, list: seq<Obs>, state: Checks, now: real): seq<(string, Reason)> {
    if list == [] then []
    else
      var obs := Last(list);
      var prev := Find(state, obs.key);
      var reason := AlertReason(cfg, prev, Judge(cfg, prev, obs, now), now);
      Alerts(cfg, Front(list), state, now) + if reason.Some? then [(obs.key, reason.value)] else []
  }

  function Recoveries(cfg: Config, list: seq<Obs>, state: Checks, now: real): seq<string> {
    if list == [] then []
    else
      var obs := Last(list);
      var prev := Find(state, obs.key);
      Recoveries(cfg, Front(list), state, now) + if Recovers(prev, Judge(cfg, prev, obs, now)) then [obs.key] else []
  }

  lemma RunStep(cfg: Config, list: seq<Obs>, i: nat, state: Checks, now: real)
    requires i < |list|
    ensures var obs, prev := list[i], Find(state, list[i].key);
            var cur := Judge(cfg, prev, obs, now);
            var reason := AlertReason(cfg, prev, cur, now);
            && NewChecks(cfg, list[..i + 1], state, now)
               == NewChecks(cfg, list[..i], state, now)[obs.key := Decided(cfg, prev, obs, now)]
            && Alerts(cfg, list[..i + 1], state, now)
               == Alerts(cfg, list[..i], state, now) + (if reason.Some? then [(obs.key, reason.value)] else [])
            && Recoveries(cfg, list[..i + 1], state, now)
               == Recoveries(cfg, list[..i], state, now) + (if Recovers(prev, cur) then [obs.key] else [])
  {
    assert Front(list[..i + 1]) == list[..i];
  }

  method Decide(cfg: Config, list: seq<Obs>, state: Checks, now: real)
    returns (alerts: seq<(string, Reason)>, recoveries: seq<string>, checks: Checks)
    ensures alerts == Alerts(cfg, list, state, now)
    ensures recoveries == Recoveries(cfg, list, state, now)
    ensures checks == NewChecks(cfg, list, state, now)
  {
    alerts, recoveries, checks := [], [], map[];
    for i := 0 to |list|
      invariant alerts == Alerts(cfg, list[..i], state, now)
      invariant recoveries == Recoveries(cfg, list[..i], state, now)
      invariant checks == NewChecks(cfg, list[..i], state, now)
    {
      var obs := list[i];
      RunStep(cfg, list, i, state, now);
      var prev := Find(state, obs.key);
      var cur, reason, recovered := DecideOne(cfg, prev, obs, now);
      if recovered {
        recoveries := recoveries + [obs.key];
      }
      if reason.Some? {
        alerts := alerts + [(obs.key, reason.value)];
      }
      checks := checks[obs.key := cur];
    }
    assert list[..|list|] == list;
  }

  /** The body of the loop of `decide`. */
  method DecideOne(cfg: Config, prev: Option<Entry>, obs: Obs, now: real)
    returns (cur: Entry, reason: Option<Reason>, recovered: bool)
    ensures cur == Decided(cfg, prev, obs, now)
    ensures reason == AlertReason(cfg, prev, Judge(cfg, prev, obs, now), now)
    ensures recovered == Recovers(prev, Judge(cfg, prev, obs, now))
  {
    var samples, p50, failures, slow := [], None, 0, 0;
    var lastAlert, lastOk := None, None;
    if prev.Some? {
      samples, p50, failures, slow := prev.value.samples, prev.value.p50, prev.value.failures, prev.value.slow;
      lastAlert, lastOk := prev.value.lastAlert, prev.value.lastOk;
    }
    var level, cond, sig := Fine, CondOk, "ok";
    if obs.ok {
      failures := 0;
      var isSlow := false;
      if obs.latency.Some? && obs.latency.value > obs.maxMs {
        sig, isSlow := "slow:slo", true;
      } else if OverBaseline(cfg, obs, samples, p50) {
        sig, isSlow := "slow:baseline", true;
      }
      if isSlow {
        slow := slow + 1;
        cond := CondSlow;
        level := if slow >= cfg.failAfter then High else Medium;
      } else {
        slow := 0;
      }
      if obs.latency.Some? {
        samples := LastN(samples + [Round1(obs.latency.value)], SAMPLE_WINDOW);
      }
      p50 := if samples == [] then None else Some(Median(samples));
      lastOk := Some(now);
    } else {
      slow := 0;
      failures := failures + 1;
      cond, sig := CondFail, obs.sig;
      level := if failures >= cfg.failAfter then Critical else Medium;
    }
    cur := Entry(level, cond, sig, failures, slow, samples, p50, lastAlert, lastOk);
    assert cur == Judge(cfg, prev, obs, now);
    var rank := Rank(level);
    reason, recovered := None, false;
    if prev.None? {
      if rank > 0 {
        reason := Some(FirstObservation);
      }
    } else {
      var before := Rank(prev.value.level);
      if rank > before {
        reason := Some(Escalation);
      } else if rank < before {
        recovered := true;
        cur := cur.(lastAlert := None);
      } else if Changed(prev.value, cur) && rank > 0 {
        reason := Some(StatusChanged);
      } else if rank >= Rank(High) && cfg.reAlertHours > 0.0 {
        if prev.value.lastAlert.None? {
          reason := Some(StillDegraded);
        } else if now - prev.value.lastAlert.value >= cfg.reAlertHours * 3600.0 {
          reason := Some(Repeat);
        }
      }
    }
    if reason.Some? {
      cur := cur.(lastAlert := Some(now));
    }
  }

  // ----- one check over its history -----

  datatype Seen = Seen(obs: Obs, now: real)

  /** The entry after a history of one check. */
  function EntryAfter(cfg: Config, h: seq<Seen>): Option<Entry> {
    if h == [] then None else Some(Decided(cfg, EntryAfter(cfg, Front(h)), Last(h).obs, Last(h).now))
  }

  /** The length of the trailing failed run. */
  function TrailingFailed(h: seq<Seen>): nat {
    if h == [] || Last(h).obs.ok then 0 else TrailingFailed(Front(h)) + 1
  }

  /** The rounded latencies of all ok observations, oldest first. */
  function Latencies(h: seq<Seen>): seq<real> {
    if h == [] then []
    else
      Latencies(Front(h)) +
      var obs := Last(h).obs; if obs.ok && obs.latency.Some? then [Round1(obs.latency.value)] else []
  }

  function Window(h: seq<Seen>): seq<real> { LastN(Latencies(h), SAMPLE_WINDOW) }

  function WindowMedian(h: seq<Seen>): Option<real> { if Window(h) == [] then None else Some(Median(Window(h))) }

  /** The last observation was ok and slow against the window before it. */
  predicate LastIsSlow(cfg: Config, h: seq<Seen>)
    requires h != []
  {
    Last(h).obs.ok && SlowAgainst(cfg, Last(h).obs, Window(Front(h)), WindowMedian(Front(h)))
  }

  function TrailingSlow(cfg: Config, h: seq<Seen>): nat {
    if h == [] || !LastIsSlow(cfg, h) then 0 else TrailingSlow(cfg, Front(h)) + 1
  }

  /** The counters, the samples and their median are functions of the history. */
  lemma {:induction false} StateIsHistory(cfg: Config, h: seq<Seen>)
    requires h != []
    ensures var e := EntryAfter(cfg, h).value;
            && e.failures == TrailingFailed(h) && e.slow == TrailingSlow(cfg, h)
            && e.samples == Window(h) && e.p50 == WindowMedian(h)
  {
    if |h| > 1 {
      StateIsHistory(cfg, Front(h));
    }
    WindowStep(h);
  }

  /** Keeping the last twenty of the kept twenty and one more keeps the last twenty of all. */
  lemma WindowStep(h: seq<Seen>)
    requires h != []
    ensures var obs := Last(h).obs;
            Window(h) == if obs.ok && obs.latency.Some?
                         then LastN(Window(Front(h)) + [Round1(obs.latency.value)], SAMPLE_WINDOW)
                         else Window(Front(h))
  {
    var all := Latencies(Front(h));
    assert all + [] == all;
  }

  /** The level is a function of the two trailing runs. */
  lemma LevelIsHistory(cfg: Config, h: seq<Seen>)
    requires h != []
    ensures var l := EntryAfter(cfg, h).value.level;
            && (l == Critical <==> TrailingFailed(h) >= 1 && TrailingFailed(h) >= cfg.failAfter)
            && (l == High <==> TrailingSlow(cfg, h) >= 1 && TrailingSlow(cfg, h) >= cfg.failAfter)
            && (l == Fine <==> TrailingFailed(h) == 0 && TrailingSlow(cfg, h) == 0)
  {
    StateIsHistory(cfg, h);
    if |h| > 1 {
      StateIsHistory(cfg, Front(h));
    }
  }

  /** "Critical exactly when the trailing failed run reaches `fail_after`" holds exactly when `fail_after`
      is at least one or the last observation failed. */
  lemma CriticalIff(cfg: Config, h: seq<Seen>)
    requires h != []
    ensures (EntryAfter(cfg, h).value.level == Critical <==> TrailingFailed(h) >= cfg.failAfter) <==>
              cfg.failAfter >= 1 || !Last(h).obs.ok
  {
    LevelIsHistory(cfg, h);
  }

  // ----- alerts over a history -----

  /** Whether the last observation of the history alerted, and why. */
  function LastReason(cfg: Config, h: seq<Seen>): Option<Reason>
    requires h != []
  {
    var prev := EntryAfter(cfg, Front(h));
    AlertReason(cfg, prev, Judge(cfg, prev, Last(h).obs, Last(h).now), Last(h).now)
  }

  function RankAfter(cfg: Config, h: seq<Seen>): nat {
    if h == [] then 0 else Rank(EntryAfter(cfg, h).value.level)
  }

  /** The time of the last alert since the level last went down. */
  function AlertSinceDrop(cfg: Config, h: seq<Seen>): Option<real> {
    if h == [] then None
    else if LastReason(cfg, h).Some? then Some(Last(h).now)
    else if RankAfter(cfg, h) < RankAfter(cfg, Front(h)) then None
    else AlertSinceDrop(cfg, Front(h))
  }

  /** Some alert was sent since the check was last fine. */
  predicate AlertedSinceFine(cfg: Config, h: seq<Seen>) {
    h != [] && RankAfter(cfg, h) > 0 && (LastReason(cfg, h).Some? || AlertedSinceFine(cfg, Front(h)))
  }

  /** `last_alert` is the last alert since the level last went down; no incident is silent; a critical
      check always carries a `last_alert`; so does a high one when `fail_after` is at least two. */
  lemma {:induction false} AlertsAreSent(cfg: Config, h: seq<Seen>)
    requires h != []
    ensures var e := EntryAfter(cfg, h).value;
            && e.lastAlert == AlertSinceDrop(cfg, h)
            && (Rank(e.level) > 0 <==> AlertedSinceFine(cfg, h))
            && (e.level == Critical ==> e.lastAlert.Some?)
            && (e.level == High && cfg.failAfter >= 2 ==> e.lastAlert.Some?)
  {
    LevelIsHistory(cfg, h);
    if |h| > 1 {
      AlertsAreSent(cfg, Front(h));
      LevelIsHistory(cfg, Front(h));
    }
  }

  /** Level, condition and signature did not change at the last observation. */
  predicate Steady(cfg: Config, h: seq<Seen>)
    requires h != []
  {
    |h| >= 2 &&
    var prev, cur := EntryAfter(cfg, Front(h)).value, EntryAfter(cfg, h).value;
    prev.level == cur.level && !Changed(prev, cur)
  }

  /** While a check is steady, an alert comes only at `high` or `critical`, and not within
      `re_alert_hours` of any earlier alert that the steady stretch reaches back to. */
  lemma {:induction false} SteadyAlertsAreSpaced(cfg: Config, h: seq<Seen>, i: nat)
    requires 0 < i < |h| && LastReason(cfg, h[..i]).Some? && LastReason(cfg, h).Some?
    requires forall k | i < k <= |h| :: Steady(cfg, h[..k])
    requires forall k | i <= k < |h| :: h[k - 1].now <= h[k].now
    ensures Last(h).now - h[i - 1].now >= cfg.reAlertHours * 3600.0
    ensures RankAfter(cfg, h) >= Rank(High)
  {
    var g := Front(h);
    assert h[..|h|] == h && g == h[..|h| - 1];
    assert forall k | 0 <= k <= |g| :: g[..k] == h[..k];
    SteadyKeepsTheAlert(cfg, g, i);
    AlertsAreSent(cfg, g);
    assert Steady(cfg, h);
    SteadyAlert(cfg, EntryAfter(cfg, g).value, Judge(cfg, EntryAfter(cfg, g), Last(h).obs, Last(h).now), Last(h).now);
  }

  /** Without a change of level, condition or signature, an alert is a repeat. */
  lemma SteadyAlert(cfg: Config, prev: Entry, cur: Entry, now: real)
    requires prev.level == cur.level && !Changed(prev, cur) && prev.lastAlert.Some?
    requires AlertReason(cfg, Some(prev), cur, now).Some?
    ensures Rank(cur.level) >= Rank(High) && now - prev.lastAlert.value >= cfg.reAlertHours * 3600.0
  {
  }

  lemma {:induction false} SteadyKeepsTheAlert(cfg: Config, h: seq<Seen>, i: nat)
    requires 0 < i <= |h| && LastReason(cfg, h[..i]).Some?
    requires forall k | i < k <= |h| :: Steady(cfg, h[..k])
    requires forall k | i <= k < |h| :: h[k - 1].now <= h[k].now
    ensures AlertSinceDrop(cfg, h).Some? && h[i - 1].now <= AlertSinceDrop(cfg, h).value <= Last(h).now
  {
    assert h[..|h|] == h;
    if i < |h| {
      var g := Front(h);
      assert forall k | 0 <= k <= |g| :: g[..k] == h[..k];
      SteadyKeepsTheAlert(cfg, g, i);
      assert Steady(cfg, h[..|h|]);
    }
  }

  // ----- many checks over many runs -----

  /** What the main program stores: a full run replaces the checks, a run with `--only` merges them. */
  datatype Run = Run(list: seq<Obs>, now: real, only: bool)

  function StateAfter(cfg: Config, runs: seq<Run>): Checks {
    if runs == [] then map[]
    else
      var r, state := Last(runs), StateAfter(cfg, Front(runs));
      var latest := NewChecks(cfg, r.list, state, r.now);
      if r.only then state + latest else latest
  }

  /** The observation of `key` in a run: the last one with that name. */
  function Observed(list: seq<Obs>, key: string): Option<Obs> {
    if list == [] then None else if Last(list).key == key then Some(Last(list)) else Observed(Front(list), key)
  }

  /** The observations that count for `key`: those since the last full run that did not probe it. */
  function History(runs: seq<Run>, key: string): seq<Seen> {
    if runs == [] then []
    else
      var r := Last(runs);
      match Observed(r.list, key)
      case Some(obs) => History(Front(runs), key) + [Seen(obs, r.now)]
      case None => if r.only then History(Front(runs), key) else []
  }

  lemma {:induction false} NewChecksAt(cfg: Config, list: seq<Obs>, state: Checks, now: real, key: string)
    ensures Find(NewChecks(cfg, list, state, now), key) ==
              match Observed(list, key)
              case Some(obs) => Some(Decided(cfg, Find(state, key), obs, now))
              case None => None
  {
    if list != [] {
      NewChecksAt(cfg, Front(list), state, now, key);
    }
  }

  /** The stored entry of every check, after any runs, is the entry of its own history: checks do not
      disturb each other, and an `--only` run disturbs none of the checks it leaves out. */
  lemma {:induction false} ChecksAreIndependent(cfg: Config, runs: seq<Run>, key: string)
    ensures Find(StateAfter(cfg, runs), key) == EntryAfter(cfg, History(runs, key))
  {
    if runs != [] {
      var r := Last(runs);
      ChecksAreIndependent(cfg, Front(runs), key);
      NewChecksAt(cfg, r.list, StateAfter(cfg, Front(runs)), r.now, key);
      var h := History(Front(runs), key);
      if Observed(r.list, key).Some? {
        var seen := Seen(Observed(r.list, key).value, r.now);
        assert Front(h + [seen]) == h && Last(h + [seen]) == seen;
      }
    }
  }

  function LastTwenty(s: seq<real>): seq<real> { if |s| <= 20 then s else s[|s| - 20..] }

  /** Slow against the latencies sampled before: over the floor and over the factor times their median. */
  predicate SlowerThan(cfg: Config, latency: real, before: seq<real>) {
    && |before| >= 10
    && var median := Median(LastTwenty(before));
       median != 0.0 && latency > cfg.slowFactor * median && latency > cfg.slowFloor
  }

  predicate BaselineSlow(cfg: Config, obs: Obs, kept: seq<real>) {
    OverBaseline(cfg, obs, kept, if kept == [] then None else Some(Median(kept)))
  }

  lemma BaselineIff(cfg: Config, obs: Obs, before: seq<real>)
    requires obs.latency.Some?
    ensures BaselineSlow(cfg, obs, LastN(before, SAMPLE_WINDOW)) <==> SlowerThan(cfg, obs.latency.value, before)
  {
    assert LastN(before, SAMPLE_WINDOW) == LastTwenty(before);
  }

  /** An ok observation is slow if and only if its latency is over the limit of its check, or, once ten
      latencies have been sampled, over both the floor and the factor times the median of the last 20,
      if that is not zero. */
  lemma SlowIff(cfg: Config, h: seq<Seen>)
    requires h != []
    ensures var obs := Last(h).obs;
            LastIsSlow(cfg, h) <==>
              && obs.ok && obs.latency.Some?
              && (obs.latency.value > obs.maxMs || SlowerThan(cfg, obs.latency.value, Latencies(Front(h))))
  {
    if Last(h).obs.latency.Some? {
      BaselineIff(cfg, Last(h).obs, Latencies(Front(h)));
    }
  }

  // ----- what is stored, and when an alert is sent -----

  /** The stored latency is the tenth that is nearest; of two that are as near, the even one. */
  lemma Round1Nearest(x: real)
    ensures exists k: int :: IsNearestTenth(x, k) && Round1(x) == k as real / 10.0
  {
    var y := x * 10.0;
    var f := y.Floor;
    var d := y - f as real;
    var k := if d < 0.5 || (d == 0.5 && f % 2 == 0) then f else f + 1;
    assert (f + 1) as real == f as real + 1.0;
    assert IsNearestTenth(x, k);
  }

  predicate IsNearestTenth(x: real, k: int) {
    var off := x * 10.0 - k as real;
    -0.5 <= off <= 0.5 && (off == 0.5 || off == -0.5 ==> k % 2 == 0)
  }

  /** When the check was last ok. */
  function LastOkTime(h: seq<Seen>): Option<real> {
    if h == [] then None else if Last(h).obs.ok then Some(Last(h).now) else LastOkTime(Front(h))
  }

  /** Condition and signature of the last observation. */
  function CondOf(cfg: Config, h: seq<Seen>): Cond
    requires h != []
  {
    if !Last(h).obs.ok then CondFail else if LastIsSlow(cfg, h) then CondSlow else CondOk
  }

  function SigOf(cfg: Config, h: seq<Seen>): string
    requires h != []
  {
    var obs := Last(h).obs;
    if !obs.ok then obs.sig
    else if !LastIsSlow(cfg, h) then "ok"
    else if obs.latency.Some? && obs.latency.value > obs.maxMs then "slow:slo"
    else "slow:baseline"
  }

  lemma {:induction false} FieldsAreHistory(cfg: Config, h: seq<Seen>)
    requires h != []
    ensures var e := EntryAfter(cfg, h).value;
            e.cond == CondOf(cfg, h) && e.sig == SigOf(cfg, h) && e.lastOk == LastOkTime(h)
  {
    if |h| > 1 {
      FieldsAreHistory(cfg, Front(h));
      StateIsHistory(cfg, Front(h));
    }
  }

  /** Levels in order. */
  predicate WorseThan(a: Level, b: Level) {
    match a
    case Fine => false
    case Medium => b == Fine
    case High => b == Fine || b == Medium
    case Critical => b != Critical
  }

  lemma WorseIsHigherRank(a: Level, b: Level)
    ensures WorseThan(a, b) <==> Rank(a) > Rank(b)
  {
  }

  /** The last alert is at least the configured interval ago, or there is none. */
  predicate Due(cfg: Config, last: Option<real>, now: real) {
    cfg.reAlertHours > 0.0 && (last.Some? ==> now - last.value >= cfg.reAlertHours * 3600.0)
  }

  lemma ReasonIff(cfg: Config, prev: Entry, cur: Entry, now: real)
    ensures AlertReason(cfg, Some(prev), cur, now).Some? <==>
              || WorseThan(cur.level, prev.level)
              || (cur.level == prev.level && cur.level != Fine
                  && (|| cur.cond != prev.cond || (cur.cond != CondOk && cur.sig != prev.sig)
                      || ((cur.level == High || cur.level == Critical) && Due(cfg, prev.lastAlert, now))))
  {
    WorseIsHigherRank(cur.level, prev.level);
    WorseIsHigherRank(prev.level, cur.level);
  }

  /** A first observation alerts if it is not fine. After that one alerts if the level is worse than before;
      or, if it is as before and not fine, when the condition or, unless it is ok, the signature is
      another; or, at high or critical, when the last alert since the level last fell is at least the
      configured interval ago. */
  lemma AlertsIff(cfg: Config, h: seq<Seen>)
    requires h != []
    ensures |h| == 1 ==> (LastReason(cfg, h).Some? <==> EntryAfter(cfg, h).value.level != Fine)
    ensures |h| > 1 ==>
              var g, level, before := Front(h), EntryAfter(cfg, h).value.level, EntryAfter(cfg, Front(h)).value.level;
              LastReason(cfg, h).Some? <==>
                || WorseThan(level, before)
                || (level == before && level != Fine
                    && (|| CondOf(cfg, h) != CondOf(cfg, g) || (CondOf(cfg, h) != CondOk && SigOf(cfg, h) != SigOf(cfg, g))
                        || ((level == High || level == Critical) && Due(cfg, AlertSinceDrop(cfg, g), Last(h).now))))
  {
    FieldsAreHistory(cfg, h);
    var prev := EntryAfter(cfg, Front(h));
    if |h| > 1 {
      FieldsAreHistory(cfg, Front(h));
      AlertsAreSent(cfg, Front(h));
      ReasonIff(cfg, prev.value, Judge(cfg, prev, Last(h).obs, Last(h).now), Last(h).now);
    }
  }
}
