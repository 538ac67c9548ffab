/**
  The rows of the leaderboard from the events of the log themselves: which class an event is of, whom it
  is about, and what it gives, in the terms of `indexer/src/leaderboard-rebuild.ts`.
 */
module LeaderboardLog {
  import opened Leaderboard
  import opened Sequences
  import opened Wrappers

  /** The text occurs in the other. */
  ghost predicate Contains(s: string, sub: string) { exists i :: Occurs(s, sub, i) }

  predicate Occurs(s: string, sub: string, i: nat) { i + |sub| <= |s| && s[i..i + |sub|] == sub }

  lemma OccursLater(s: string, sub: string, i: nat)
    requires s != ""
    ensures Occurs(s, sub, i + 1) <==> Occurs(s[1..], sub, i)
  {
    if i + 1 + |sub| <= |s| {
      assert s[i + 1..i + 1 + |sub|] == s[1..][i..i + |sub|];
    }
  }

  lemma {:induction false} IncludesIff(s: string, sub: string)
    ensures Includes(s, sub) <==> exists i :: Occurs(s, sub, i)
  {
    assert sub <= s <==> Occurs(s, sub, 0);
    if s != "" {
      IncludesIff(s[1..], sub);
      if i: nat :| Occurs(s[1..], sub, i) {
        OccursLater(s, sub, i);
      }
      if i: nat :| Occurs(s, sub, i) && i > 0 {
        OccursLater(s, sub, i - 1);
      }
    }
  }

  /** The value under the first of the keys that can be read. */
  predicate IsFirst<T(==)>(read: Js -> Option<T>, p: Payload, keys: seq<string>, v: Option<T>) {
    if v.None? then forall k | k in keys :: read(Field(p, k)).None?
    else exists i | 0 <= i < |keys| :: read(Field(p, keys[i])) == v && forall j | 0 <= j < i :: read(Field(p, keys[j])).None?
  }

  lemma {:induction false} FirstStringIs(rt: Runtime, p: Payload, keys: seq<string>)
    ensures IsFirst(v => ToStringOrNull(rt, v), p, keys, FirstString(rt, p, keys))
  {
    if keys != [] {
      FirstStringIs(rt, p, keys[1..]);
      LaterIsFirst(v => ToStringOrNull(rt, v), p, keys, FirstString(rt, p, keys[1..]));
    }
  }

  lemma {:induction false} FirstNumberIs(rt: Runtime, p: Payload, keys: seq<string>)
    ensures IsFirst(v => ToNumberOrNull(rt, v), p, keys, FirstNumber(rt, p, keys))
  {
    if keys != [] {
      FirstNumberIs(rt, p, keys[1..]);
      LaterIsFirst(v => ToNumberOrNull(rt, v), p, keys, FirstNumber(rt, p, keys[1..]));
    }
  }

  lemma {:induction false} FirstBooleanIs(rt: Runtime, p: Payload, keys: seq<string>)
    ensures IsFirst(v => ToBooleanOrNull(rt, v), p, keys, FirstBoolean(rt, p, keys))
  {
    if keys != [] {
      FirstBooleanIs(rt, p, keys[1..]);
      LaterIsFirst(v => ToBooleanOrNull(rt, v), p, keys, FirstBoolean(rt, p, keys[1..]));
    }
  }

  lemma LaterIsFirst<T>(read: Js -> Option<T>, p: Payload, keys: seq<string>, v: Option<T>)
    requires keys != [] && IsFirst(read, p, keys[1..], v)
    ensures read(Field(p, keys[0])).None? ==> IsFirst(read, p, keys, v)
    ensures read(Field(p, keys[0])).Some? ==> IsFirst(read, p, keys, read(Field(p, keys[0])))
  {
    assert keys == [keys[0]] + keys[1..];
    if read(Field(p, keys[0])).None? && v.Some? {
      var i :| 0 <= i < |keys[1..]| && read(Field(p, keys[1..][i])) == v
               && forall j | 0 <= j < i :: read(Field(p, keys[1..][j])).None?;
      assert read(Field(p, keys[i + 1])) == v;
      assert forall j | 0 < j < i + 1 :: keys[j] == keys[1..][j - 1];
    }
  }

  /** A claim says so in its type, or its payload has a winner flag and points. */
  ghost predicate IsClaim(rt: Runtime, e: Event) {
    || e.eventType == "reward_claimed" || e.eventType == "market_reward_claimed" || e.eventType == "claim_rewarded"
    || Contains(e.eventType, "claim")
    || ((exists k | k in {"is_winner", "isWinner", "won"} :: ToBooleanOrNull(rt, Field(e.payload, k)).Some?)
        && exists k | k in {"points", "points_delta", "reward_points"} :: ToNumberOrNull(rt, Field(e.payload, k)).Some?)
  }

  ghost predicate IsRegistration(e: Event) { Contains(e.eventType, "register") }

  ghost predicate IsBonus(e: Event) {
    Contains(e.eventType, "referral") || e.eventType == "bonus_points_awarded" || e.eventType == "leaderboard_bonus"
  }

  /** The class that an event shows by itself, the first that fits. */
  ghost function Shown(rt: Runtime, e: Event): Class {
    if IsClaim(rt, e) then Claim else if IsRegistration(e) then Registration else if IsBonus(e) then Bonus else Other
  }

  /** The address that an event of the class is about. */
  function Subject(rt: Runtime, e: Event, branch: Class): string {
    var keys := match branch
                case Claim => ["user", "address", "bettor", "recipient"]
                case Registration => ["user", "address", "registrant"]
                case Bonus => ["referrer", "user", "address", "recipient"]
                case Other => ["user", "address", "actor", "recipient"];
    var named := FirstString(rt, e.payload, keys);
    if named.Some? then named.value else e.actor
  }

  /** The referrer of a registration that has a subject. */
  predicate Refers(rt: Runtime, e: Event, branch: Class, a: string) {
    && branch.Registration? && Subject(rt, e, branch) != ""
    && FirstString(rt, e.payload, ["referrer", "referrer_address"]) == Some(a)
  }

  predicate SaysWon(rt: Runtime, e: Event) { FirstBoolean(rt, e.payload, ["is_winner", "isWinner", "won"]) == Some(true) }

  /** The points for the event's subject: the payload's, or else those of its class; none for others without. */
  function SubjectPoints(rt: Runtime, e: Event, branch: Class): Option<int> {
    var (keys, default) := match branch
                         case Claim => (["points", "points_delta", "reward_points"], Some(if SaysWon(rt, e) then 30 else 10))
                         case Registration => (["welcome_bonus_points", "points"], Some(5))
                         case Bonus => (["points", "bonus_points", "points_delta"], Some(3))
                         case Other => (["points", "points_delta", "bonus_points"], None);
    var given := FirstNumber(rt, e.payload, keys);
    if given.Some? then given else default
  }

  function ReferrerPoints(rt: Runtime, e: Event): int {
    var given := FirstNumber(rt, e.payload, ["referrer_bonus_points", "bonus_points", "referral_points"]);
    if given.Some? then given.value else 5
  }

  predicate SubjectIs(rt: Runtime, e: Event, branch: Class, a: string) {
    Subject(rt, e, branch) == a && SubjectPoints(rt, e, branch).Some?
  }

  /** The event counts for the address. */
  ghost predicate Credits(rt: Runtime, e: Event, a: string) {
    a != "" && (SubjectIs(rt, e, Shown(rt, e), a) || Refers(rt, e, Shown(rt, e), a))
  }

  function SubjectShare(rt: Runtime, e: Event, branch: Class, a: string): int {
    if SubjectIs(rt, e, branch, a) then SubjectPoints(rt, e, branch).value else 0
  }

  function ReferrerShare(rt: Runtime, e: Event, branch: Class, a: string): int {
    if Refers(rt, e, branch, a) then ReferrerPoints(rt, e) else 0
  }

  function Wins(rt: Runtime, e: Event, branch: Class, a: string): int {
    if branch.Claim? && Subject(rt, e, branch) == a && SaysWon(rt, e) then 1 else 0
  }

  function Losses(rt: Runtime, e: Event, branch: Class, a: string): int {
    if branch.Claim? && Subject(rt, e, branch) == a && !SaysWon(rt, e) then 1 else 0
  }

  ghost function PointsFrom(rt: Runtime, a: string): Event -> int {
    (e: Event) => SubjectShare(rt, e, Shown(rt, e), a) + ReferrerShare(rt, e, Shown(rt, e), a)
  }

  ghost function WinsFrom(rt: Runtime, a: string): Event -> int { (e: Event) => Wins(rt, e, Shown(rt, e), a) }

  ghost function LossesFrom(rt: Runtime, a: string): Event -> int { (e: Event) => Losses(rt, e, Shown(rt, e), a) }

  lemma ClaimIff(rt: Runtime, e: Event)
    ensures LooksLikeClaimEvent(rt, e) <==> IsClaim(rt, e)
  {
    IncludesIff(e.eventType, "claim");
    ReadableIff(rt, e.payload);
  }

  lemma RegistrationIff(e: Event)
    ensures LooksLikeRegistration(e) <==> IsRegistration(e)
  {
    IncludesIff(e.eventType, "register");
    TypesContain();
  }

  lemma BonusIff(e: Event)
    ensures LooksLikeBonus(e) <==> IsBonus(e)
  {
    IncludesIff(e.eventType, "referral");
    TypesContain();
  }

  lemma ClassIsShown(rt: Runtime, e: Event)
    ensures ClassOf(rt, e) == Shown(rt, e)
  {
    ClaimIff(rt, e);
    RegistrationIff(e);
    BonusIff(e);
  }

  lemma ReadableIff(rt: Runtime, p: Payload)
    ensures FirstBoolean(rt, p, WINNER).Some? <==>
              exists k | k in {"is_winner", "isWinner", "won"} :: ToBooleanOrNull(rt, Field(p, k)).Some?
    ensures FirstNumber(rt, p, CLAIM_POINTS).Some? <==>
              exists k | k in {"points", "points_delta", "reward_points"} :: ToNumberOrNull(rt, Field(p, k)).Some?
  {
    FirstBooleanIs(rt, p, WINNER);
    FirstNumberIs(rt, p, CLAIM_POINTS);
    assert WINNER[0] == "is_winner" && WINNER[1] == "isWinner" && WINNER[2] == "won";
    assert CLAIM_POINTS[0] == "points" && CLAIM_POINTS[1] == "points_delta" && CLAIM_POINTS[2] == "reward_points";
  }

  /** The listed types of registrations and of referral bonuses contain the words anyway. */
  lemma TypesContain()
    ensures Contains("referral_registered", "register") && Contains("registered_referral", "register")
    ensures Contains("referral_credited", "referral") && Contains("referral_bonus", "referral")
  {
    assert Occurs("referral_registered", "register", 9) && Occurs("registered_referral", "register", 0);
    assert Occurs("referral_credited", "referral", 0) && Occurs("referral_bonus", "referral", 0);
  }

  /** The visit to an event's subject, and to its referrer. */
  function SubjectVisit(rt: Runtime, e: Event, branch: Class): seq<Touch> {
    if Subject(rt, e, branch) == "" || SubjectPoints(rt, e, branch).None? then []
    else [Touch(Subject(rt, e, branch), e.ledgerSeq,
                Or(FirstString(rt, e.payload, ["display_name", "displayName", "name"]), ""),
                SubjectPoints(rt, e, branch).value, if branch.Claim? && SaysWon(rt, e) then 1 else 0,
                if branch.Claim? && !SaysWon(rt, e) then 1 else 0)]
  }

  function ReferrerVisit(rt: Runtime, e: Event, branch: Class): seq<Touch> {
    var referrer := FirstString(rt, e.payload, ["referrer", "referrer_address"]);
    if !branch.Registration? || Subject(rt, e, branch) == "" || referrer == None || referrer == Some("") then []
    else [Touch(referrer.value, e.ledgerSeq, "", ReferrerPoints(rt, e), 0, 0)]
  }

  lemma TouchesAreVisits(rt: Runtime, e: Event, branch: Class)
    ensures TouchesIn(rt, e, branch) == SubjectVisit(rt, e, branch) + ReferrerVisit(rt, e, branch)
  {
  }

  /** What visits give to an address, together. */
  predicate Give(ts: seq<Touch>, a: string, points: int, won: int, lost: int) {
    Sum(ts, PointsTo(a)) == points && Sum(ts, WonBy(a)) == won && Sum(ts, LostBy(a)) == lost
  }

  lemma GiveBoth(ts: seq<Touch>, us: seq<Touch>, a: string, p: int, w: int, l: int, p': int, w': int, l': int)
    requires Give(ts, a, p, w, l) && Give(us, a, p', w', l')
    ensures Give(ts + us, a, p + p', w + w', l + l')
    ensures Touched(ts + us, a) <==> Touched(ts, a) || Touched(us, a)
  {
    SumAppend(ts, us, PointsTo(a));
    SumAppend(ts, us, WonBy(a));
    SumAppend(ts, us, LostBy(a));
  }

  lemma OneVisitGives(t: Touch, a: string)
    ensures if t.address == a then Give([t], a, t.points, t.won, t.lost) else Give([t], a, 0, 0, 0)
    ensures Touched([t], a) <==> t.address == a
  {
    assert [t][1..] == [];
    if t.address == a {
      assert t in [t];
    }
  }

  lemma SubjectVisitGives(rt: Runtime, e: Event, branch: Class, a: string)
    requires a != ""
    ensures var ts := SubjectVisit(rt, e, branch);
            && Give(ts, a, SubjectShare(rt, e, branch, a), Wins(rt, e, branch, a), Losses(rt, e, branch, a))
            && (Touched(ts, a) <==> SubjectIs(rt, e, branch, a))
  {
    if SubjectVisit(rt, e, branch) != [] {
      OneVisitGives(SubjectVisit(rt, e, branch)[0], a);
    }
  }

  lemma ReferrerVisitGives(rt: Runtime, e: Event, branch: Class, a: string)
    requires a != ""
    ensures var ts := ReferrerVisit(rt, e, branch);
            Give(ts, a, ReferrerShare(rt, e, branch, a), 0, 0) && (Touched(ts, a) <==> Refers(rt, e, branch, a))
  {
    if ReferrerVisit(rt, e, branch) != [] {
      OneVisitGives(ReferrerVisit(rt, e, branch)[0], a);
    }
  }

  lemma BranchGives(rt: Runtime, e: Event, branch: Class, a: string)
    requires a != ""
    ensures Give(TouchesIn(rt, e, branch), a, SubjectShare(rt, e, branch, a) + ReferrerShare(rt, e, branch, a),
                 Wins(rt, e, branch, a), Losses(rt, e, branch, a))
    ensures Touched(TouchesIn(rt, e, branch), a) <==> SubjectIs(rt, e, branch, a) || Refers(rt, e, branch, a)
  {
    TouchesAreVisits(rt, e, branch);
    SubjectVisitGives(rt, e, branch, a);
    ReferrerVisitGives(rt, e, branch, a);
    GiveBoth(SubjectVisit(rt, e, branch), ReferrerVisit(rt, e, branch), a,
             SubjectShare(rt, e, branch, a), Wins(rt, e, branch, a), Losses(rt, e, branch, a),
             ReferrerShare(rt, e, branch, a), 0, 0);
  }

  /** What an event's visits give to an address is what the event shows. */
  lemma VisitsGive(rt: Runtime, e: Event, a: string)
    requires a != ""
    ensures Give(TouchesOf(rt, e), a, PointsFrom(rt, a)(e), WinsFrom(rt, a)(e), LossesFrom(rt, a)(e))
    ensures Touched(TouchesOf(rt, e), a) <==> Credits(rt, e, a)
  {
    ClassIsShown(rt, e);
    BranchGives(rt, e, Shown(rt, e), a);
  }

  lemma {:induction false} LogGives(rt: Runtime, es: seq<Event>, a: string)
    requires a != ""
    ensures Give(AllTouches(rt, es), a, Sum(es, PointsFrom(rt, a)), Sum(es, WinsFrom(rt, a)), Sum(es, LossesFrom(rt, a)))
  {
    if es != [] {
      var e, rest := es[0], es[1..];
      VisitsGive(rt, e, a);
      LogGives(rt, rest, a);
      GiveBoth(TouchesOf(rt, e), AllTouches(rt, rest), a, PointsFrom(rt, a)(e), WinsFrom(rt, a)(e), LossesFrom(rt, a)(e),
               Sum(rest, PointsFrom(rt, a)), Sum(rest, WinsFrom(rt, a)), Sum(rest, LossesFrom(rt, a)));
    }
  }

  lemma TouchedBoth(ts: seq<Touch>, us: seq<Touch>, a: string)
    ensures Touched(ts + us, a) <==> Touched(ts, a) || Touched(us, a)
  {
    assert forall t :: t in ts + us <==> t in ts || t in us;
  }

  lemma {:induction false} LogTouches(rt: Runtime, es: seq<Event>, a: string)
    requires a != ""
    ensures Touched(AllTouches(rt, es), a) <==> exists e | e in es :: Credits(rt, e, a)
  {
    if es != [] {
      VisitsGive(rt, es[0], a);
      LogTouches(rt, es[1..], a);
      TouchedBoth(TouchesOf(rt, es[0]), AllTouches(rt, es[1..]), a);
      assert es == [es[0]] + es[1..];
    }
  }

  lemma NobodyIsNameless(rt: Runtime, e: Event, branch: Class)
    ensures !Touched(TouchesIn(rt, e, branch), "")
  {
    TouchesAreVisits(rt, e, branch);
    var ts, us := SubjectVisit(rt, e, branch), ReferrerVisit(rt, e, branch);
    assert forall t | t in ts + us :: t in ts || t in us;
  }

  lemma {:induction false} NobodyInTheLogIsNameless(rt: Runtime, es: seq<Event>)
    ensures !Touched(AllTouches(rt, es), "")
  {
    if es != [] {
      NobodyIsNameless(rt, es[0], ClassOf(rt, es[0]));
      NobodyInTheLogIsNameless(rt, es[1..]);
    }
  }

  /** The rows, from the event log: one for each address that some event counts for, with the sum of the
      points the events give it, the number of claims that say it won, and the number of its other claims. */
  lemma RowsFromTheLog(rt: Runtime, es: seq<Event>, s: Score)
    ensures s in Scores(Snapshot(rt, es)) <==>
              && (exists e | e in es :: Credits(rt, e, s.address))
              && s.points == Sum(es, PointsFrom(rt, s.address))
              && s.wonBets == Sum(es, WinsFrom(rt, s.address))
              && s.lostBets == Sum(es, LossesFrom(rt, s.address))
  {
    SnapshotIsExact(rt, es);
    if s.address == "" {
      NobodyInTheLogIsNameless(rt, es);
    } else {
      LogGives(rt, es, s.address);
      LogTouches(rt, es, s.address);
    }
  }

  // ----- what can be read -----

  lemma TextIff(rt: Runtime, v: Js, s: string)
    ensures ToStringOrNull(rt, v) == Some(s) <==>
              match v
              case Text(t) => rt.trim(t) == s && s != ""
              case Number(n) => rt.show(n) == s
              case _ => false
  {
  }

  lemma NumberIff(rt: Runtime, v: Js, n: int)
    ensures ToNumberOrNull(rt, v) == Some(n) <==>
              v == Number(n) || (v.Text? && rt.trim(v.text) != "" && rt.parse(v.text) == Some(n))
  {
  }

  /** A flag is a boolean, a number that is or is not zero, or one of these words in any case. */
  lemma FlagIff(rt: Runtime, v: Js, flag: bool)
    ensures ToBooleanOrNull(rt, v) == Some(flag) <==>
              match v
              case Bool(b) => b == flag
              case Number(n) => (n != 0) == flag
              case Text(s) =>
                var word := rt.lower(rt.trim(s));
                if flag then word in {"true", "t", "yes", "y", "win", "winner", "won", "1"}
                else word in {"false", "f", "no", "n", "lose", "loser", "lost", "0"}
              case _ => false
  {
    if v.Text? {
      WordsDiffer(rt.lower(rt.trim(v.text)));
    }
  }

  lemma WordsDiffer(word: string)
    ensures !(word in {"true", "t", "yes", "y", "win", "winner", "won", "1"}
              && word in {"false", "f", "no", "n", "lose", "loser", "lost", "0"})
  {
    if word in {"true", "t", "yes", "y", "win", "winner", "won", "1"} {
      assert word[0] in {'t', 'y', 'w', '1'};
    }
    if word in {"false", "f", "no", "n", "lose", "loser", "lost", "0"} {
      assert word[0] in {'f', 'n', 'l', '0'};
    }
  }

  // ----- display names -----

  function NameAt(players: seq<Player>, a: string): string {
    if players == [] then "" else if players[0].address == a then players[0].displayName else NameAt(players[1..], a)
  }

  /** The last name that is not empty among the visits to an address. */
  function LastName(ts: seq<Touch>, a: string): string {
    if ts == [] then "" else if Last(ts).address == a && Last(ts).displayName != "" then Last(ts).displayName else LastName(Front(ts), a)
  }

  lemma {:induction false} ApplyName(players: seq<Player>, t: Touch, a: string)
    ensures NameAt(Apply(players, t), a) == if t.address == a && t.displayName != "" then t.displayName else NameAt(players, a)
  {
    if players != [] && players[0].address != t.address {
      ApplyName(players[1..], t, a);
    }
  }

  lemma {:induction false} ApplyAllSnoc(players: seq<Player>, ts: seq<Touch>)
    requires ts != []
    ensures ApplyAll(players, ts) == Apply(ApplyAll(players, Front(ts)), Last(ts))
    decreases |ts|
  {
    if |ts| > 1 {
      assert Front(ts)[0] == ts[0] && Front(ts)[1..] == Front(ts[1..]);
      ApplyAllSnoc(Apply(players, ts[0]), ts[1..]);
    } else {
      assert Front(ts) == [] && ts[1..] == [];
    }
  }

  /** The name on the board is the last one a visit brought. */
  lemma {:induction false} NamesAreLast(ts: seq<Touch>, a: string)
    ensures NameAt(ApplyAll([], ts), a) == LastName(ts, a)
  {
    if ts != [] {
      NamesAreLast(Front(ts), a);
      ApplyAllSnoc([], ts);
      ApplyName(ApplyAll([], Front(ts)), Last(ts), a);
    }
  }
}
