/**
  The alert state machine of `infra/cert-monitor/check-certs.py`: `classify`, `_apply_dates` and
  `decide_alerts`. Times are integer microseconds, the resolution of Python's `datetime`; `last_alert`
  survives its ISO text unchanged.
 */
module CertAlerts {
  import opened Sequences
  import opened Wrappers

  const MINUTE := 60_000_000
  const DAY := 86_400_000_000
  const HOUR := 3_600_000_000.0

  /** What checking an endpoint yields: an error text, or a certificate. */
  datatype Probe = Unreachable(msg: string) | Read(notBefore: int, notAfter: int, fingerprint: string)

  /** The stored error text: the text of a failed check, or the one that names the first valid minute. */
  datatype Problem = CheckFailed(msg: string) | NotValidUntil(minute: int)

  datatype Level = Fine | Medium | High | Critical | Error

  datatype Obs = Obs(key: string, level: Level, fingerprint: Option<string>, notAfter: Option<int>, error: Option<Problem>)

  datatype Entry = Entry(level: Level, fingerprint: Option<string>, notAfter: Option<int>, error: Option<Problem>,
                         lastAlert: Option<int>)

  datatype Reason = FirstObservation | NearExpiryReplacement | StatusChanged | Escalated | Repeat | StillCritical
  datatype Notice = Renewed | Cleared

  function Rank(l: Level): nat {
    match l case Fine => 0 case Medium => 1 case High => 2 case Critical => 3 case Error => 3
  }

  /** `classify` on the whole days left, rounded down. */
  function Classify(days: int): Level {
    if days <= 7 then Critical else if days <= 14 then High else if days <= 30 then Medium else Fine
  }

  /** `check_endpoint` and `_apply_dates`. */
  function Observe(key: string, p: Probe, now: int): Obs {
    match p
    case Unreachable(msg) => Obs(key, Error, None, None, Some(CheckFailed(msg)))
    case Read(notBefore, notAfter, fingerprint) =>
      if notBefore > now then
        Obs(key, Error, Some(fingerprint), Some(notAfter), Some(NotValidUntil(notBefore / MINUTE)))
      else
        Obs(key, Classify((notAfter - now) / DAY), Some(fingerprint), Some(notAfter), None)
  }

  // ----- one observation -----

  predicate ChangedCert(prev: Entry, obs: Obs) {
    obs.fingerprint.Some? && prev.fingerprint.Some? && prev.fingerprint != obs.fingerprint
  }

  function AlertReason(prev: Option<Entry>, obs: Obs, hours: real, now: int): Option<Reason> {
    var rank := Rank(obs.level);
    if prev.None? then if rank > 0 then Some(FirstObservation) else None
    else
      var before := Rank(prev.value.level);
      if ChangedCert(prev.value, obs) then if rank > 0 && rank >= before then Some(NearExpiryReplacement) else None
      else if obs.error != prev.value.error then if rank > 0 then Some(StatusChanged) else None
      else if rank > before then Some(Escalated)
      else if rank < before then None
      else if rank >= Rank(Critical) && hours > 0.0 then
        match prev.value.lastAlert
        case Some(last) => if (now - last) as real >= hours * HOUR then Some(Repeat) else None
        case None => Some(StillCritical)
      else None
  }

  function NoticeOf(prev: Option<Entry>, obs: Obs): Option<Notice> {
    if prev.None? || Rank(obs.level) >= Rank(prev.value.level) then None
    else if ChangedCert(prev.value, obs) then Some(Renewed)
    else if obs.error != prev.value.error then None
    else Some(Cleared)
  }

  /** `last_alert` before an alert sets it. */
  function Carried(prev: Option<Entry>, obs: Obs): Option<int> {
    if prev.None? || ChangedCert(prev.value, obs) || NoticeOf(prev, obs) == Some(Cleared) then None
    else prev.value.lastAlert
  }

  function Decided(prev: Option<Entry>, obs: Obs, hours: real, now: int): Entry {
    Entry(obs.level, obs.fingerprint, obs.notAfter, obs.error,
          if AlertReason(prev, obs, hours, now).Some? then Some(now) else Carried(prev, obs))
  }

  // ----- a list of observations -----

  type Endpoints = map<string, Entry>

  function Find(m: Endpoints, key: string): Option<Entry> { if key in m then Some(m[key]) else None }

  function Stored(list: seq<Obs>, eps: Endpoints, hours: real, now: int): Endpoints {
    if list == [] then eps
    else
      var obs, before := Last(list), Stored(Front(list), eps, hours, now);
      before[obs.key := Decided(Find(before, obs.key), obs, hours, now)]
  }

  function Alerts(list: seq<Obs>, eps: Endpoints, hours: real, now: int): seq<(Obs, Reason)> {
    if list == [] then []
    else
      var obs, before := Last(list), Stored(Front(list), eps, hours, now);
      var reason := AlertReason(Find(before, obs.key), obs, hours, now);
      Alerts(Front(list), eps, hours, now) + if reason.Some? then [(obs, reason.value)] else []
  }

  function Notices(list: seq<Obs>, eps: Endpoints, hours: real, now: int): seq<(Obs, Notice)> {
    if list == [] then []
    else
      var obs, before := Last(list), Stored(Front(list), eps, hours, now);
      var notice := NoticeOf(Find(before, obs.key), obs);
      Notices(Front(list), eps, hours, now) + if notice.Some? then [(obs, notice.value)] else []
  }

  method DecideAlerts(list: seq<Obs>, state: Endpoints, hours: real, now: int)
    returns (alerts: seq<(Obs, Reason)>, renewals: seq<(Obs, Notice)>, eps: Endpoints)
    ensures alerts == Alerts(list, state, hours, now)
    ensures renewals == Notices(list, state, hours, now)
    ensures eps == Stored(list, state, hours, now)
  {
    alerts, renewals, eps := [], [], state;
    for i := 0 to |list|
      invariant alerts == Alerts(list[..i], state, hours, now)
      invariant renewals == Notices(list[..i], state, hours, now)
      invariant eps == Stored(list[..i], state, hours, now)
    {
      var obs := list[i];
      assert Front(list[..i + 1]) == list[..i] && Last(list[..i + 1]) == obs;
      var cur, reason, notice := DecideOne(Find(eps, obs.key), obs, hours, now);
      if notice.Some? {
        renewals := renewals + [(obs, notice.value)];
      }
      if reason.Some? {
        alerts := alerts + [(obs, reason.value)];
      }
      eps := eps[obs.key := cur];
    }
    assert list[..|list|] == list;
  }

  /** The body of the loop of `decide_alerts`. */
  method DecideOne(prev: Option<Entry>, obs: Obs, hours: real, now: int)
    returns (cur: Entry, reason: Option<Reason>, notice: Option<Notice>)
    ensures cur == Decided(prev, obs, hours, now)
    ensures reason == AlertReason(prev, obs, hours, now)
    ensures notice == NoticeOf(prev, obs)
  {
    cur := Entry(obs.level, obs.fingerprint, obs.notAfter, obs.error, if prev.Some? then prev.value.lastAlert else None);
    var rank := Rank(obs.level);
    reason, notice := None, None;
    if prev.None? {
      if rank > 0 {
        reason := Some(FirstObservation);
      }
    } else {
      var changedCert := obs.fingerprint.Some? && prev.value.fingerprint !in {None, obs.fingerprint};
      var before := Rank(prev.value.level);
      if changedCert {
        cur := cur.(lastAlert := None);
        if rank < before && before > 0 {
          notice := Some(Renewed);
        } else if rank > 0 {
          reason := Some(NearExpiryReplacement);
        }
      } else if obs.error != prev.value.error {
        if rank > 0 {
          reason := Some(StatusChanged);
        }
      } else if rank > before {
        reason := Some(Escalated);
      } else if rank < before {
        notice := Some(Cleared);
        cur := cur.(lastAlert := None);
      } else if rank >= Rank(Critical) && hours > 0.0 {
        if prev.value.lastAlert.None? {
          reason := Some(StillCritical);
        } else if (now - prev.value.lastAlert.value) as real >= hours * HOUR {
          reason := Some(Repeat);
        }
      }
    }
    if reason.Some? {
      cur := cur.(lastAlert := Some(now));
    }
  }

  // ----- one endpoint over its history, from the empty state -----

  datatype Seen = Seen(probe: Probe, now: int)

  function Look(s: Seen): Obs { Observe("", s.probe, s.now) }

  function EntryAfter(hours: real, h: seq<Seen>): Option<Entry> {
    if h == [] then None else Some(Decided(EntryAfter(hours, Front(h)), Look(Last(h)), hours, Last(h).now))
  }

  /** What the last observation of the history sent. */
  function LastReason(hours: real, h: seq<Seen>): Option<Reason>
    requires h != []
  {
    AlertReason(EntryAfter(hours, Front(h)), Look(Last(h)), hours, Last(h).now)
  }

  function LastNotice(hours: real, h: seq<Seen>): Option<Notice>
    requires h != []
  {
    NoticeOf(EntryAfter(hours, Front(h)), Look(Last(h)))
  }

  predicate ClockForward(h: seq<Seen>) { forall i | 0 < i < |h| :: h[i - 1].now <= h[i].now }

  /** A fingerprint determines its certificate. */
  predicate FingerprintsIdentify(h: seq<Seen>) {
    forall i, j | 0 <= i < |h| && 0 <= j < |h| && h[i].probe.Read? && h[j].probe.Read? ::
      h[i].probe.fingerprint == h[j].probe.fingerprint ==> h[i].probe == h[j].probe
  }

  /** Every field but `last_alert` is that of the last observation. */
  lemma EntryIsLastLook(hours: real, h: seq<Seen>)
    requires h != []
    ensures var e, o := EntryAfter(hours, h).value, Look(Last(h));
            e.level == o.level && e.fingerprint == o.fingerprint && e.error == o.error
  {
  }

  /** A stored rank-3 level always carries a `last_alert`, so the branch for one without it is never
      taken; and `last_alert` is never in the future. */
  lemma {:induction false} CriticalCarriesAlert(hours: real, h: seq<Seen>)
    requires h != []
    ensures var e := EntryAfter(hours, h).value;
            && (Rank(e.level) == 3 ==> e.lastAlert.Some?)
            && (ClockForward(h) && e.lastAlert.Some? ==> e.lastAlert.value <= Last(h).now)
    ensures LastReason(hours, h) != Some(StillCritical)
  {
    if |h| > 1 {
      CriticalCarriesAlert(hours, Front(h));
    }
  }

  // ----- ageing -----

  /** The level of a valid certificate never goes down as the clock goes forward. */
  lemma RankGrowsWithAge(p: Probe, now: int, later: int)
    requires now <= later && Observe("", p, now).error == Observe("", p, later).error
    ensures Rank(Observe("", p, now).level) <= Rank(Observe("", p, later).level)
  {
    if p.Read? {
      assert (p.notAfter - later) / DAY <= (p.notAfter - now) / DAY;
    }
  }

  /** Certificate and error are what they were at the observation before. */
  predicate Unchanged(h: seq<Seen>)
    requires h != []
  {
    |h| >= 2 && Last(h).probe == Last(Front(h)).probe && Look(Last(h)).error == Look(Last(Front(h))).error
  }

  /** With certificate and error unchanged, two critical alerts are at least `re_alert_hours` apart. */
  lemma {:induction false} CriticalAlertsAreSpaced(hours: real, h: seq<Seen>, i: nat)
    requires 0 < i < |h| && ClockForward(h) && forall k | i < k <= |h| :: Unchanged(h[..k])
    requires LastReason(hours, h[..i]).Some? && Rank(Look(h[i - 1]).level) == 3
    requires LastReason(hours, h).Some?
    ensures (Last(h).now - h[i - 1].now) as real >= hours * HOUR
    ensures LastReason(hours, h) == Some(Repeat)
  {
    var g := Front(h);
    assert h[..|h|] == h;
    assert forall k | 0 <= k <= |g| :: g[..k] == h[..k];
    UnchangedKeepsTheAlert(hours, g, i);
    RankGrowsWithAge(Last(h).probe, Last(g).now, Last(h).now);
  }

  lemma {:induction false} UnchangedKeepsTheAlert(hours: real, h: seq<Seen>, i: nat)
    requires 0 < i <= |h| && ClockForward(h) && forall k | i < k <= |h| :: Unchanged(h[..k])
    requires LastReason(hours, h[..i]).Some? && Rank(Look(h[i - 1]).level) == 3
    ensures Rank(Look(Last(h)).level) == 3
    ensures var e := EntryAfter(hours, h).value; e.lastAlert.Some? && h[i - 1].now <= e.lastAlert.value
  {
    assert h[..|h|] == h;
    if i < |h| {
      var g := Front(h);
      assert forall k | 0 <= k <= |g| :: g[..k] == h[..k];
      UnchangedKeepsTheAlert(hours, g, i);
      RankGrowsWithAge(Last(h).probe, Last(g).now, Last(h).now);
      ClockReaches(h, i - 1);
    }
  }

  lemma {:induction false} ClockReaches(h: seq<Seen>, i: nat)
    requires i < |h| && ClockForward(h)
    ensures h[i].now <= Last(h).now
  {
    if i < |h| - 1 {
      ClockReaches(Front(h), i);
    }
  }

  /** The history of one valid certificate that only ages. */
  predicate OnlyAges(h: seq<Seen>, p: Probe) {
    p.Read? && ClockForward(h) && forall s | s in h :: s.probe == p && p.notBefore <= s.now
  }

  function RankAfter(h: seq<Seen>): nat { if h == [] then 0 else Rank(Look(Last(h)).level) }

  function NonRepeatAlerts(hours: real, h: seq<Seen>): nat {
    if h == [] then 0
    else NonRepeatAlerts(hours, Front(h)) + if LastReason(hours, h).Some? && LastReason(hours, h) != Some(Repeat) then 1 else 0
  }

  /** A certificate that only ages alerts, repeats aside, exactly when it enters a higher level... */
  lemma AgeingAlertsOnEntry(hours: real, h: seq<Seen>, p: Probe)
    requires h != [] && OnlyAges(h, p)
    ensures RankAfter(Front(h)) <= RankAfter(h)
    ensures (LastReason(hours, h).Some? && LastReason(hours, h) != Some(Repeat)) <==> RankAfter(Front(h)) < RankAfter(h)
    ensures LastNotice(hours, h).None?
  {
    CriticalCarriesAlert(hours, h);
    if |h| > 1 {
      assert Last(Front(h)) in h;
      RankGrowsWithAge(p, Last(Front(h)).now, Last(h).now);
    }
  }

  /** ...so it causes at most three such alerts, no more than the rank it has reached. */
  lemma {:induction false} AgeingAlertsOncePerLevel(hours: real, h: seq<Seen>, p: Probe)
    requires OnlyAges(h, p)
    ensures NonRepeatAlerts(hours, h) <= RankAfter(h) <= 3
    ensures NonRepeatAlerts(hours, h) > 0 <==> RankAfter(h) > 0
  {
    if h != [] {
      FrontOnlyAges(h, p);
      AgeingAlertsOncePerLevel(hours, Front(h), p);
      AgeingAlertsOnEntry(hours, h, p);
      EntryRank(hours, h);
    }
  }

  lemma FrontOnlyAges(h: seq<Seen>, p: Probe)
    requires h != [] && OnlyAges(h, p)
    ensures OnlyAges(Front(h), p)
  {
    assert forall s | s in Front(h) :: s in h;
  }

  lemma EntryRank(hours: real, h: seq<Seen>)
    requires h != []
    ensures RankAfter(h) <= 3
    ensures NonRepeatAlerts(hours, h) == NonRepeatAlerts(hours, Front(h))
                                         + if LastReason(hours, h).Some? && LastReason(hours, h) != Some(Repeat) then 1 else 0
  {
  }

  // ----- levels -----

  /** The level of a certificate that is valid already, by the time it has left. */
  lemma LevelIff(key: string, p: Probe, now: int)
    requires p.Read? && p.notBefore <= now
    ensures var level, left := Observe(key, p, now).level, p.notAfter - now;
            && (level == Critical <==> left < 8 * DAY)
            && (level == High <==> 8 * DAY <= left < 15 * DAY)
            && (level == Medium <==> 15 * DAY <= left < 31 * DAY)
            && (level == Fine <==> left >= 31 * DAY)
  {
  }

  // ----- notices -----

  /** Over any history with the clock going forward, "condition cleared" is never reported, and a renewal
      notice comes exactly when two successive checks read different certificates and the level fell. */
  lemma NoticeIff(hours: real, h: seq<Seen>)
    requires |h| >= 2 && ClockForward(h) && FingerprintsIdentify(h)
    ensures LastNotice(hours, h) != Some(Cleared)
    ensures var prev, cur := Last(Front(h)), Last(h);
            LastNotice(hours, h) == Some(Renewed) <==>
              && prev.probe.Read? && cur.probe.Read? && prev.probe.fingerprint != cur.probe.fingerprint
              && RankAfter(h) < RankAfter(Front(h))
  {
    var prev, cur := Last(Front(h)), Last(h);
    assert prev == h[|h| - 2] && cur == h[|h| - 1];
    if prev.probe == cur.probe && Look(prev).error == Look(cur).error {
      RankGrowsWithAge(cur.probe, prev.now, cur.now);
    }
  }

  /** So the end of an outage is silent: a reachable certificate in good standing after a failed check
      sends neither an alert nor a notice. */
  lemma OutageEndsSilently(hours: real, h: seq<Seen>)
    requires |h| >= 2 && Last(Front(h)).probe.Unreachable? && Last(h).probe.Read? && RankAfter(h) == 0
    ensures LastReason(hours, h).None? && LastNotice(hours, h).None?
  {
  }

  /** A replacement certificate that is not fine alerts at once, as documented, if and only if its level
      is no better than the old one's. */
  lemma ReplacementAlertsIff(hours: real, h: seq<Seen>)
    requires |h| >= 2 && Last(Front(h)).probe.Read? && Last(h).probe.Read?
    requires Last(Front(h)).probe.fingerprint != Last(h).probe.fingerprint && RankAfter(h) > 0
    ensures LastReason(hours, h) == Some(NearExpiryReplacement) <==> RankAfter(h) >= RankAfter(Front(h))
    ensures LastReason(hours, h).Some? <==> LastReason(hours, h) == Some(NearExpiryReplacement)
  {
  }

  /** A renewal from 5 days to 20 days left: still medium, and no alert. */
  lemma QuietReplacement(hours: real)
    ensures var h := [Seen(Read(0, 5 * DAY, "a"), 0), Seen(Read(0, 20 * DAY, "b"), 0)];
            RankAfter(h) == 1 && LastReason(hours, h).None? && LastNotice(hours, h) == Some(Renewed)
  {
    var h := [Seen(Read(0, 5 * DAY, "a"), 0), Seen(Read(0, 20 * DAY, "b"), 0)];
    assert Front(h) == [h[0]];
    EntryIsLastLook(hours, [h[0]]);
    assert "a"[0] != "b"[0];
  }

  // ----- many endpoints over many runs -----

  datatype Run = Run(probes: seq<(string, Probe)>, now: int)

  function Looks(probes: seq<(string, Probe)>, now: int): seq<Obs> {
    if probes == [] then []
    else Looks(Front(probes), now) + [Observe(Last(probes).0, Last(probes).1, now)]
  }

  function StateAfter(hours: real, runs: seq<Run>): Endpoints {
    if runs == [] then map[]
    else
      var r := Last(runs);
      Stored(Looks(r.probes, r.now), StateAfter(hours, Front(runs)), hours, r.now)
  }

  function SeenIn(probes: seq<(string, Probe)>, now: int, key: string): seq<Seen> {
    if probes == [] then []
    else SeenIn(Front(probes), now, key) + if Last(probes).0 == key then [Seen(Last(probes).1, now)] else []
  }

  function History(runs: seq<Run>, key: string): seq<Seen> {
    if runs == [] then [] else History(Front(runs), key) + SeenIn(Last(runs).probes, Last(runs).now, key)
  }

  lemma {:induction false} StoredAt(hours: real, probes: seq<(string, Probe)>, now: int, eps: Endpoints, key: string, h: seq<Seen>)
    requires Find(eps, key) == EntryAfter(hours, h)
    ensures Find(Stored(Looks(probes, now), eps, hours, now), key) == EntryAfter(hours, h + SeenIn(probes, now, key))
  {
    if probes == [] {
      assert h + [] == h;
    } else {
      StoredAt(hours, Front(probes), now, eps, key, h);
      StoredSnoc(hours, probes, now, eps, key);
      SeenSnoc(probes, now, key, h);
      if Last(probes).0 == key {
        EntryGrows(hours, h + SeenIn(Front(probes), now, key), key, Last(probes).1, now);
      }
    }
  }

  lemma StoredSnoc(hours: real, probes: seq<(string, Probe)>, now: int, eps: Endpoints, key: string)
    requires probes != []
    ensures var (name, probe) := Last(probes);
            var before := Find(Stored(Looks(Front(probes), now), eps, hours, now), key);
            Find(Stored(Looks(probes, now), eps, hours, now), key)
            == if name == key then Some(Decided(before, Observe(key, probe, now), hours, now)) else before
  {
    assert Front(Looks(probes, now)) == Looks(Front(probes), now);
  }

  lemma SeenSnoc(probes: seq<(string, Probe)>, now: int, key: string, h: seq<Seen>)
    requires probes != []
    ensures var before := h + SeenIn(Front(probes), now, key);
            h + SeenIn(probes, now, key) == if Last(probes).0 == key then before + [Seen(Last(probes).1, now)] else before
  {
    assert SeenIn(Front(probes), now, key) + [] == SeenIn(Front(probes), now, key);
  }

  lemma EntryGrows(hours: real, h: seq<Seen>, key: string, probe: Probe, now: int)
    ensures EntryAfter(hours, h + [Seen(probe, now)])
         == Some(Decided(EntryAfter(hours, h), Observe(key, probe, now), hours, now))
  {
    assert Front(h + [Seen(probe, now)]) == h;
    KeyDoesNotMatter(EntryAfter(hours, h), key, probe, hours, now);
  }

  lemma KeyDoesNotMatter(prev: Option<Entry>, key: string, p: Probe, hours: real, now: int)
    ensures Decided(prev, Observe(key, p, now), hours, now) == Decided(prev, Observe("", p, now), hours, now)
  {
  }

  /** The stored entry of every endpoint, after any runs from the empty state, is the entry of its own
      history; an endpoint that a run does not check keeps its entry. */
  lemma {:induction false} EndpointsAreIndependent(hours: real, runs: seq<Run>, key: string)
    ensures Find(StateAfter(hours, runs), key) == EntryAfter(hours, History(runs, key))
  {
    if runs != [] {
      var r := Last(runs);
      EndpointsAreIndependent(hours, Front(runs), key);
      StoredAt(hours, r.probes, r.now, StateAfter(hours, Front(runs)), key, History(Front(runs), key));
    }
  }

  // ----- when an alert is sent -----

  /** How bad an observation is: a failed check, a certificate that is not valid yet, and one with less
      than eight days left are the worst. */
  function Severity(s: Seen): nat {
    match s.probe
    case Unreachable(_) => 3
    case Read(notBefore, notAfter, _) =>
      if notBefore > s.now || notAfter - s.now < 8 * DAY then 3
      else if notAfter - s.now < 15 * DAY then 2
      else if notAfter - s.now < 31 * DAY then 1
      else 0
  }

  lemma SeverityIsRank(s: Seen)
    ensures Rank(Look(s).level) == Severity(s)
  {
    if s.probe.Read? && s.probe.notBefore <= s.now {
      LevelIff("", s.probe, s.now);
    }
  }

  /** What is stored of an observation. */
  lemma EntryFields(hours: real, h: seq<Seen>)
    requires h != []
    ensures var e, s := EntryAfter(hours, h).value, Last(h);
            match s.probe
            case Unreachable(msg) => e.fingerprint == None && e.notAfter == None && e.error == Some(CheckFailed(msg)) && e.level == Error
            case Read(notBefore, notAfter, fingerprint) =>
              && e.fingerprint == Some(fingerprint) && e.notAfter == Some(notAfter)
              && (if notBefore > s.now then e.level == Error && e.error == Some(NotValidUntil(notBefore / MINUTE))
                  else e.level != Error && e.error == None)
  {
  }

  /** Two observations name the same trouble, or both none. */
  predicate SameTrouble(s: Seen, t: Seen) {
    match (s.probe, t.probe)
    case (Unreachable(m), Unreachable(n)) => m == n
    case (Read(b, _, _), Read(c, _, _)) => (b > s.now <==> c > t.now) && (b > s.now ==> b / MINUTE == c / MINUTE)
    case _ => false
  }

  predicate NewCertificate(s: Seen, t: Seen) { s.probe.Read? && t.probe.Read? && s.probe.fingerprint != t.probe.fingerprint }

  /** The time of the last alert of the history. */
  function LastAlertTime(hours: real, h: seq<Seen>): Option<int> {
    if h == [] then None
    else if LastReason(hours, h).Some? then Some(Last(h).now)
    else LastAlertTime(hours, Front(h))
  }

  lemma {:induction false} StoredAlertIsLast(hours: real, h: seq<Seen>)
    requires h != []
    ensures EntryAfter(hours, h).value.lastAlert.Some? ==> EntryAfter(hours, h).value.lastAlert == LastAlertTime(hours, h)
  {
    if |h| > 1 {
      StoredAlertIsLast(hours, Front(h));
    }
  }

  /** A first observation alerts if anything is wrong. After that a new certificate alerts if something is
      wrong and it is no better than before; a new trouble, or none any more, if something is wrong; and
      otherwise an observation that is worse than before, or as bad as can be when the last alert is at
      least the configured interval ago. */
  lemma AlertsIff(hours: real, h: seq<Seen>)
    requires h != []
    ensures var cur := Last(h);
            LastReason(hours, h).Some? <==>
              if |h| == 1 then Severity(cur) > 0
              else
                var prev := Last(Front(h));
                if NewCertificate(prev, cur) then Severity(cur) > 0 && Severity(cur) >= Severity(prev)
                else if !SameTrouble(prev, cur) then Severity(cur) > 0
                else
                  || Severity(cur) > Severity(prev)
                  || (Severity(cur) == 3 == Severity(prev) && hours > 0.0 && LastAlertTime(hours, Front(h)).Some?
                      && (cur.now - LastAlertTime(hours, Front(h)).value) as real >= hours * HOUR)
  {
    SeverityIsRank(Last(h));
    if |h| > 1 {
      SeverityIsRank(Last(Front(h)));
      CriticalCarriesAlert(hours, Front(h));
      StoredAlertIsLast(hours, Front(h));
      EntryFields(hours, Front(h));
    }
  }
}
