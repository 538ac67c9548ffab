/**
  The leaderboard rebuild of `indexer/src/leaderboard-rebuild.ts`: fold the event log into players, sort
  them, and insert them in batches that fit one statement. Points are integers. Trimming, lower-casing
  and number parsing are parameters, so what is proved holds however they work.
 */
module Leaderboard {
  import opened Sequences
  import opened Wrappers

  // ----- reading payloads -----

  datatype Js = Undefined | Null | Bool(flag: bool) | Number(number: int) | Text(text: string) | Object

  datatype Runtime = Runtime(
    trim: string -> string, lower: string -> string, parse: string -> Option<int>, show: int -> string)

  type Payload = map<string, Js>

  datatype Event = Event(ledgerSeq: int, eventType: string, actor: string, payload: Payload)

  function Field(p: Payload, key: string): Js { if key in p then p[key] else Undefined }

  function ToStringOrNull(rt: Runtime, v: Js): Option<string> {
    match v
    case Text(s) => if |rt.trim(s)| > 0 then Some(rt.trim(s)) else None
    case Number(n) => Some(rt.show(n))
    case _ => None
  }

  function ToNumberOrNull(rt: Runtime, v: Js): Option<int> {
    match v
    case Number(n) => Some(n)
    case Text(s) => if rt.trim(s) != "" then rt.parse(s) else None
    case _ => None
  }

  function ToBooleanOrNull(rt: Runtime, v: Js): Option<bool> {
    match v
    case Bool(b) => Some(b)
    case Number(n) => Some(n != 0)
    case Text(s) =>
      var word := rt.lower(rt.trim(s));
      if word in {"true", "t", "yes", "y", "win", "winner", "won", "1"} then Some(true)
      else if word in {"false", "f", "no", "n", "lose", "loser", "lost", "0"} then Some(false)
      else None
    case _ => None
  }

  function FirstString(rt: Runtime, p: Payload, keys: seq<string>): Option<string> {
    if keys == [] then None
    else
      var v := ToStringOrNull(rt, Field(p, keys[0]));
      if v.Some? then v else FirstString(rt, p, keys[1..])
  }

  function FirstNumber(rt: Runtime, p: Payload, keys: seq<string>): Option<int> {
    if keys == [] then None
    else
      var v := ToNumberOrNull(rt, Field(p, keys[0]));
      if v.Some? then v else FirstNumber(rt, p, keys[1..])
  }

  function FirstBoolean(rt: Runtime, p: Payload, keys: seq<string>): Option<bool> {
    if keys == [] then None
    else
      var v := ToBooleanOrNull(rt, Field(p, keys[0]));
      if v.Some? then v else FirstBoolean(rt, p, keys[1..])
  }

  function Or<T>(v: Option<T>, d: T): T { if v.Some? then v.value else d }

  predicate Includes(s: string, sub: string) { sub <= s || (s != "" && Includes(s[1..], sub)) }

  const WINNER := ["is_winner", "isWinner", "won"]
  const CLAIM_POINTS := ["points", "points_delta", "reward_points"]
  const NAMES := ["display_name", "displayName", "name"]

  predicate LooksLikeClaimEvent(rt: Runtime, e: Event) {
    || e.eventType in {"reward_claimed", "market_reward_claimed", "claim_rewarded"}
    || Includes(e.eventType, "claim")
    || (FirstBoolean(rt, e.payload, WINNER).Some? && FirstNumber(rt, e.payload, CLAIM_POINTS).Some?)
  }

  predicate LooksLikeRegistration(e: Event) {
    e.eventType in {"referral_registered", "registered_referral"} || Includes(e.eventType, "register")
  }

  predicate LooksLikeBonus(e: Event) {
    || e.eventType in {"referral_credited", "referral_bonus", "bonus_points_awarded", "leaderboard_bonus"}
    || Includes(e.eventType, "referral")
  }

  // ----- what an event does to the players -----

  datatype Player = Player(address: string, displayName: string, points: int, wonBets: int, lostBets: int, lastTouchedLedger: int)

  /** One visit to one player: what it adds, and the display name it brings, if any. */
  datatype Touch = Touch(address: string, ledgerSeq: int, displayName: string, points: int, won: int, lost: int)

  /** The branches of `buildLeaderboardSnapshot`. */
  datatype Class = Claim | Registration | Bonus | Other

  function ClassOf(rt: Runtime, e: Event): Class {
    if LooksLikeClaimEvent(rt, e) then Claim
    else if LooksLikeRegistration(e) then Registration
    else if LooksLikeBonus(e) then Bonus
    else Other
  }

  function TouchesOf(rt: Runtime, e: Event): seq<Touch> { TouchesIn(rt, e, ClassOf(rt, e)) }

  function TouchesIn(rt: Runtime, e: Event, branch: Class): seq<Touch> {
    var p, name := e.payload, Or(FirstString(rt, e.payload, NAMES), "");
    match branch
    case Claim =>
      var user := Or(FirstString(rt, p, ["user", "address", "bettor", "recipient"]), e.actor);
      var winner := Or(FirstBoolean(rt, p, WINNER), false);
      var points := Or(FirstNumber(rt, p, CLAIM_POINTS), if winner then 30 else 10);
      if user == "" then [] else [Touch(user, e.ledgerSeq, name, points, if winner then 1 else 0, if winner then 0 else 1)]
    case Registration =>
      var user := Or(FirstString(rt, p, ["user", "address", "registrant"]), e.actor);
      var welcome := Or(FirstNumber(rt, p, ["welcome_bonus_points", "points"]), 5);
      var referrer := Or(FirstString(rt, p, ["referrer", "referrer_address"]), "");
      var bonus := Or(FirstNumber(rt, p, ["referrer_bonus_points", "bonus_points", "referral_points"]), 5);
      if user == "" then []
      else [Touch(user, e.ledgerSeq, name, welcome, 0, 0)] + if referrer == "" then [] else [Touch(referrer, e.ledgerSeq, "", bonus, 0, 0)]
    case Bonus =>
      var target := Or(FirstString(rt, p, ["referrer", "user", "address", "recipient"]), e.actor);
      var delta := Or(FirstNumber(rt, p, ["points", "bonus_points", "points_delta"]), 3);
      if target == "" then [] else [Touch(target, e.ledgerSeq, name, delta, 0, 0)]
    case Other =>
      var target := Or(FirstString(rt, p, ["user", "address", "actor", "recipient"]), e.actor);
      var delta := FirstNumber(rt, p, ["points", "points_delta", "bonus_points"]);
      if target == "" || delta == None then [] else [Touch(target, e.ledgerSeq, name, delta.value, 0, 0)]
  }

  function Visit(x: Player, t: Touch): Player {
    Player(x.address, if t.displayName == "" then x.displayName else t.displayName,
           x.points + t.points, x.wonBets + t.won, x.lostBets + t.lost,
           if t.ledgerSeq > x.lastTouchedLedger then t.ledgerSeq else x.lastTouchedLedger)
  }

  function Newcomer(t: Touch): Player { Player(t.address, "", 0, 0, 0, t.ledgerSeq) }

  /** The `players` Map, in insertion order. */
  function Apply(players: seq<Player>, t: Touch): seq<Player> {
    if players == [] then [Visit(Newcomer(t), t)]
    else if players[0].address == t.address then [Visit(players[0], t)] + players[1..]
    else [players[0]] + Apply(players[1..], t)
  }

  function ApplyAll(players: seq<Player>, ts: seq<Touch>): seq<Player>
    decreases |ts|
  {
    if ts == [] then players else ApplyAll(Apply(players, ts[0]), ts[1..])
  }

  function AllTouches(rt: Runtime, es: seq<Event>): seq<Touch> {
    if es == [] then [] else TouchesOf(rt, es[0]) + AllTouches(rt, es[1..])
  }

  class Board {
    var players: seq<Player>

    constructor ()
      ensures players == []
    {
      players := [];
    }

    /** `getPlayer` and the updates of the `handle*` functions that follow it. */
    method Touch(t: Touch)
      modifies this
      ensures players == Apply(old(players), t)
    {
      var i := 0;
      while i < |players| && players[i].address != t.address
        invariant 0 <= i <= |players| && players == old(players)
        invariant forall j :: 0 <= j < i ==> players[j].address != t.address
      {
        i := i + 1;
      }
      ApplyAt(players, t, i);
      if i < |players| {
        players := players[i := Visit(players[i], t)];
      } else {
        players := players + [Visit(Newcomer(t), t)];
      }
    }

    /** The loop of `buildLeaderboardSnapshot`. */
    method Fold(rt: Runtime, events: seq<Event>) returns (eventCount: nat, lastLedgerSeq: Option<int>)
      requires players == []
      modifies this
      ensures players == ApplyAll([], AllTouches(rt, events))
      ensures eventCount == |events| && lastLedgerSeq == if events == [] then None else Some(Last(events).ledgerSeq)
    {
      eventCount, lastLedgerSeq := 0, None;
      for i := 0 to |events|
        invariant eventCount == i && lastLedgerSeq == if i == 0 then None else Some(events[i - 1].ledgerSeq)
        invariant ApplyAll([], AllTouches(rt, events)) == ApplyAll(players, AllTouches(rt, events[i..]))
      {
        eventCount, lastLedgerSeq := eventCount + 1, Some(events[i].ledgerSeq);
        var touches := TouchesOf(rt, events[i]);
        assert events[i..][0] == events[i] && events[i..][1..] == events[i + 1..];
        var rest := AllTouches(rt, events[i + 1..]);
        for k := 0 to |touches|
          invariant ApplyAll([], AllTouches(rt, events)) == ApplyAll(players, touches[k..] + rest)
        {
          assert (touches[k..] + rest)[1..] == touches[k + 1..] + rest;
          Touch(touches[k]);
        }
        assert touches[|touches|..] + rest == rest;
      }
    }
  }

  lemma {:induction false} ApplyAt(players: seq<Player>, t: Touch, i: nat)
    requires i <= |players| && (forall j :: 0 <= j < i ==> players[j].address != t.address)
    requires i < |players| ==> players[i].address == t.address
    ensures Apply(players, t) == if i < |players| then players[i := Visit(players[i], t)] else players + [Visit(Newcomer(t), t)]
  {
    if i > 0 {
      ApplyAt(players[1..], t, i - 1);
    }
  }

  // ----- the order of the rows -----

  /** A leaderboard row, without and with the display name. */
  datatype Score = Score(address: string, points: int, wonBets: int, lostBets: int)

  function ScoreOf(x: Player): Score { Score(x.address, x.points, x.wonBets, x.lostBets) }

  /** `localeCompare` on addresses: character by character. That is what it does on Stellar addresses, whose
      alphabet is `A` to `Z` and `2` to `7`; beyond it distinct strings may compare equal. */
  predicate AddressBefore(a: string, b: string) {
    b != [] && (a == [] || a[0] < b[0] || (a[0] == b[0] && AddressBefore(a[1..], b[1..])))
  }

  predicate Before(x: Score, y: Score) {
    if x.points != y.points then x.points > y.points
    else if x.wonBets != y.wonBets then x.wonBets > y.wonBets
    else if x.lostBets != y.lostBets then x.lostBets < y.lostBets
    else AddressBefore(x.address, y.address)
  }

  lemma {:induction false} AddressOrder(a: string, b: string, c: string)
    ensures !AddressBefore(a, a)
    ensures a != b ==> AddressBefore(a, b) || AddressBefore(b, a)
    ensures AddressBefore(a, b) && AddressBefore(b, c) ==> AddressBefore(a, c)
    decreases |a| + |b| + |c|
  {
    if a != [] && b != [] && c != [] {
      AddressOrder(a[1..], b[1..], c[1..]);
      assert a[0] == b[0] && a[1..] == b[1..] ==> a == b;
    } else if a != [] {
      AddressOrder(a[1..], if b == [] then [] else b[1..], []);
      assert b != [] && a[0] == b[0] && a[1..] == b[1..] ==> a == b;
    }
  }

  lemma ScoreOrder(x: Score, y: Score, z: Score)
    ensures !Before(x, x)
    ensures x != y ==> Before(x, y) || Before(y, x)
    ensures Before(x, y) && Before(y, z) ==> Before(x, z)
  {
    AddressOrder(x.address, y.address, z.address);
  }

  predicate Sorted(rows: seq<Player>) { forall i, j | 0 <= i < j < |rows| :: Before(ScoreOf(rows[i]), ScoreOf(rows[j])) }

  function Insert(x: Player, rows: seq<Player>): (r: seq<Player>)
    ensures multiset(r) == multiset(rows) + multiset{x}
  {
    if rows == [] || !Before(ScoreOf(rows[0]), ScoreOf(x)) then [x] + rows
    else
      assert rows == [rows[0]] + rows[1..];
      [rows[0]] + Insert(x, rows[1..])
  }

  function SortPlayers(players: seq<Player>): (r: seq<Player>)
    ensures multiset(r) == multiset(players)
  {
    if players == [] then []
    else
      assert players == [players[0]] + players[1..];
      Insert(players[0], SortPlayers(players[1..]))
  }

  predicate Unique(players: seq<Player>) { forall i, j | 0 <= i < j < |players| :: players[i].address != players[j].address }

  lemma {:induction false} InsertSorts(x: Player, rows: seq<Player>)
    requires Sorted(rows) && forall y | y in rows :: ScoreOf(y) != ScoreOf(x)
    ensures Sorted(Insert(x, rows))
  {
    if rows != [] && Before(ScoreOf(rows[0]), ScoreOf(x)) {
      var rest := rows[1..];
      InsertSorts(x, rest);
      var r := Insert(x, rest);
      forall y | y in r ensures Before(ScoreOf(rows[0]), ScoreOf(y)) {
        assert y in multiset(r);
        assert y == x || y in rest;
      }
    } else {
      forall y | y in rows ensures Before(ScoreOf(x), ScoreOf(y)) {
        assert rows[0] in rows;
        ScoreOrder(ScoreOf(x), ScoreOf(rows[0]), ScoreOf(y));
      }
    }
  }

  lemma {:induction false} SortSorts(players: seq<Player>)
    requires Unique(players)
    ensures Sorted(SortPlayers(players))
  {
    if players != [] {
      SortSorts(players[1..]);
      forall y | y in SortPlayers(players[1..]) ensures ScoreOf(y) != ScoreOf(players[0]) {
        assert y in multiset(players[1..]);
      }
      InsertSorts(players[0], SortPlayers(players[1..]));
    }
  }

  // ----- what the fold adds up to -----

  /** What the touches give to one address. */
  function PointsTo(a: string): Touch -> int { (t: Touch) => if t.address == a then t.points else 0 }
  function WonBy(a: string): Touch -> int { (t: Touch) => if t.address == a then t.won else 0 }
  function LostBy(a: string): Touch -> int { (t: Touch) => if t.address == a then t.lost else 0 }

  predicate Plays(players: seq<Player>, a: string) { exists i :: 0 <= i < |players| && players[i].address == a }

  predicate Touched(ts: seq<Touch>, a: string) { exists t :: t in ts && t.address == a }

  /** The score of an address so far; zero for a stranger. */
  function ScoreAt(players: seq<Player>, a: string): Score {
    if players == [] then Score(a, 0, 0, 0)
    else if players[0].address == a then ScoreOf(players[0])
    else ScoreAt(players[1..], a)
  }

  lemma PlaysCons(x: Player, rest: seq<Player>, a: string)
    ensures Plays([x] + rest, a) <==> x.address == a || Plays(rest, a)
  {
    if Plays(rest, a) {
      var i :| 0 <= i < |rest| && rest[i].address == a;
      assert ([x] + rest)[i + 1].address == a;
    }
    if x.address == a {
      assert ([x] + rest)[0].address == a;
    }
  }

  lemma {:induction false} ApplyEffect(players: seq<Player>, t: Touch, a: string)
    ensures var s, s' := ScoreAt(players, a), ScoreAt(Apply(players, t), a);
            s' == if t.address == a then Score(a, s.points + t.points, s.wonBets + t.won, s.lostBets + t.lost) else s
    ensures Plays(Apply(players, t), a) <==> Plays(players, a) || t.address == a
  {
    if players == [] {
      assert Apply(players, t)[0].address == t.address;
    } else {
      var rest := players[1..];
      assert players == [players[0]] + rest;
      PlaysCons(players[0], rest, a);
      if players[0].address == t.address {
        PlaysCons(Visit(players[0], t), rest, a);
      } else {
        ApplyEffect(rest, t, a);
        PlaysCons(players[0], Apply(rest, t), a);
      }
    }
  }

  lemma {:induction false} ApplyUnique(players: seq<Player>, t: Touch)
    requires Unique(players)
    ensures Unique(Apply(players, t))
  {
    if players != [] && players[0].address != t.address {
      ApplyUnique(players[1..], t);
      ApplyEffect(players[1..], t, players[0].address);
      var r, head := Apply(players[1..], t), players[0].address;
      forall j | 0 <= j < |r| ensures r[j].address != head {
        assert r[j].address == head ==> Plays(r, head);
      }
    }
  }

  /** Every player's score is the sum over all touches of that address, whatever their order. */
  lemma {:induction false} FoldAddsUp(players: seq<Player>, ts: seq<Touch>, a: string)
    requires Unique(players)
    ensures var s, s' := ScoreAt(players, a), ScoreAt(ApplyAll(players, ts), a);
            s' == Score(a, s.points + Sum(ts, PointsTo(a)), s.wonBets + Sum(ts, WonBy(a)), s.lostBets + Sum(ts, LostBy(a)))
    ensures Plays(ApplyAll(players, ts), a) <==> Plays(players, a) || Touched(ts, a)
    ensures Unique(ApplyAll(players, ts))
    decreases |ts|
  {
    if ts == [] {
      ScoreAtAddress(players, a);
    } else {
      ApplyEffect(players, ts[0], a);
      ApplyUnique(players, ts[0]);
      FoldAddsUp(Apply(players, ts[0]), ts[1..], a);
      ScoreAtAddress(players, a);
      assert Touched(ts, a) <==> ts[0].address == a || Touched(ts[1..], a);
    }
  }

  lemma {:induction false} ScoreAtAddress(players: seq<Player>, a: string)
    ensures ScoreAt(players, a).address == a
  {
    if players != [] {
      ScoreAtAddress(players[1..], a);
    }
  }

  lemma {:induction false} ScoreAtIndex(players: seq<Player>, i: nat)
    requires Unique(players) && i < |players|
    ensures ScoreAt(players, players[i].address) == ScoreOf(players[i])
  {
    if i > 0 {
      ScoreAtIndex(players[1..], i - 1);
    }
  }

  // ----- order-independence -----

  function TouchMultiset(rt: Runtime, es: seq<Event>): multiset<Touch> { multiset(AllTouches(rt, es)) }

  lemma {:induction false} AllTouchesSplit(rt: Runtime, a: seq<Event>, b: seq<Event>)
    ensures AllTouches(rt, a + b) == AllTouches(rt, a) + AllTouches(rt, b)
  {
    if a == [] {
      assert a + b == b;
    } else {
      assert (a + b)[0] == a[0] && (a + b)[1..] == a[1..] + b;
      AllTouchesSplit(rt, a[1..], b);
    }
  }

  lemma AllTouchesRemove(rt: Runtime, es: seq<Event>, i: nat)
    requires i < |es|
    ensures TouchMultiset(rt, es) == multiset(TouchesOf(rt, es[i])) + TouchMultiset(rt, es[..i] + es[i + 1..])
  {
    assert es == es[..i] + ([es[i]] + es[i + 1..]);
    assert ([es[i]] + es[i + 1..])[1..] == es[i + 1..];
    AllTouchesSplit(rt, es[..i], [es[i]] + es[i + 1..]);
    AllTouchesSplit(rt, es[..i], es[i + 1..]);
  }

  /** The same events in another order touch the players in another order. */
  lemma {:induction false} TouchesPermute(rt: Runtime, es: seq<Event>, fs: seq<Event>)
    requires multiset(es) == multiset(fs)
    ensures TouchMultiset(rt, es) == TouchMultiset(rt, fs)
    decreases |es|
  {
    if es == [] {
      assert |multiset(fs)| == 0;
    } else {
      var i := MatchHead(es, fs);
      AllTouchesRemove(rt, fs, i);
      TouchesPermute(rt, es[1..], fs[..i] + fs[i + 1..]);
    }
  }

  function Snapshot(rt: Runtime, es: seq<Event>): seq<Player> { SortPlayers(ApplyAll([], AllTouches(rt, es))) }

  /** `buildLeaderboardSnapshot`: fold, then sort. */
  method BuildLeaderboardSnapshot(rt: Runtime, events: seq<Event>) returns (rows: seq<Player>, eventCount: nat, lastLedgerSeq: Option<int>)
    ensures rows == Snapshot(rt, events) && eventCount == |events|
    ensures lastLedgerSeq == if events == [] then None else Some(Last(events).ledgerSeq)
  {
    var board := new Board();
    eventCount, lastLedgerSeq := board.Fold(rt, events);
    rows := SortPlayers(board.players);
  }

  function Scores(rows: seq<Player>): seq<Score> { seq(|rows|, i requires 0 <= i < |rows| => ScoreOf(rows[i])) }

  predicate SortedScores(s: seq<Score>) { forall i, j | 0 <= i < j < |s| :: Before(s[i], s[j]) }

  /** A strictly sorted list is determined by what is in it. */
  lemma {:induction false} SortedIsUnique(a: seq<Score>, b: seq<Score>)
    requires SortedScores(a) && SortedScores(b) && forall x :: x in a <==> x in b
    ensures a == b
  {
    assert a == [] <==> b == [] by {
      if a != [] {
        assert a[0] in a;
      }
      if b != [] {
        assert b[0] in b;
      }
    }
    if a != [] {
      assert a[0] in b && b[0] in a;
      if a[0] != b[0] {
        var i :| 0 <= i < |b| && b[i] == a[0];
        var j :| 0 <= j < |a| && a[j] == b[0];
        assert Before(b[0], b[i]) && Before(a[0], a[j]);
        ScoreOrder(a[0], b[0], a[0]);
        assert false;
      }
      forall x ensures x in a[1..] <==> x in b[1..] {
        ScoreOrder(x, x, x);
        assert x in a <==> x == a[0] || x in a[1..];
        assert x in b <==> x == b[0] || x in b[1..];
      }
      SortedIsUnique(a[1..], b[1..]);
      assert a == [a[0]] + a[1..] && b == [b[0]] + b[1..];
    }
  }

  /** The score the touches add up to for one address. */
  function Tally(ts: seq<Touch>, a: string): Score {
    Score(a, Sum(ts, PointsTo(a)), Sum(ts, WonBy(a)), Sum(ts, LostBy(a)))
  }

  lemma PlayersAreTallies(ts: seq<Touch>, s: Score)
    ensures var players := ApplyAll([], ts);
            (exists k :: 0 <= k < |players| && ScoreOf(players[k]) == s) <==> Touched(ts, s.address) && s == Tally(ts, s.address)
  {
    var players := ApplyAll([], ts);
    FoldAddsUp([], ts, s.address);
    if k :| 0 <= k < |players| && ScoreOf(players[k]) == s {
      ScoreAtIndex(players, k);
      assert Plays(players, s.address);
    }
    if Touched(ts, s.address) && s == Tally(ts, s.address) {
      assert Plays(players, s.address);
      var k :| 0 <= k < |players| && players[k].address == s.address;
      ScoreAtIndex(players, k);
    }
  }

  lemma SameScores(rows: seq<Player>, players: seq<Player>, s: Score)
    requires multiset(rows) == multiset(players)
    ensures s in Scores(rows) <==> exists k :: 0 <= k < |players| && ScoreOf(players[k]) == s
  {
    if s in Scores(rows) {
      var i :| 0 <= i < |rows| && Scores(rows)[i] == s;
      assert rows[i] in multiset(players);
      var k :| 0 <= k < |players| && players[k] == rows[i];
      assert ScoreOf(players[k]) == s;
    }
    if k :| 0 <= k < |players| && ScoreOf(players[k]) == s {
      assert players[k] in multiset(rows);
      var i :| 0 <= i < |rows| && rows[i] == players[k];
      assert Scores(rows)[i] == s;
    }
  }

  /** The snapshot is strictly sorted by (points, wins, losses, address), and has one row per touched
      address, with the sums of that address's touches. */
  lemma SnapshotIsExact(rt: Runtime, es: seq<Event>)
    ensures Sorted(Snapshot(rt, es))
    ensures var ts := AllTouches(rt, es);
            forall s :: s in Scores(Snapshot(rt, es)) <==> Touched(ts, s.address) && s == Tally(ts, s.address)
  {
    var ts := AllTouches(rt, es);
    FoldAddsUp([], ts, "");
    SortSorts(ApplyAll([], ts));
    forall s ensures s in Scores(Snapshot(rt, es)) <==> Touched(ts, s.address) && s == Tally(ts, s.address) {
      PlayersAreTallies(ts, s);
      SameScores(Snapshot(rt, es), ApplyAll([], ts), s);
    }
  }

  /** Permuting the event log does not change the rows, up to display names. */
  lemma SnapshotIsOrderIndependent(rt: Runtime, es: seq<Event>, fs: seq<Event>)
    requires multiset(es) == multiset(fs)
    ensures Scores(Snapshot(rt, es)) == Scores(Snapshot(rt, fs))
  {
    TouchesPermute(rt, es, fs);
    SnapshotIsExact(rt, es);
    SnapshotIsExact(rt, fs);
    var ts, us := AllTouches(rt, es), AllTouches(rt, fs);
    forall s ensures s in Scores(Snapshot(rt, es)) <==> s in Scores(Snapshot(rt, fs)) {
      SumPermutes(ts, us, PointsTo(s.address));
      SumPermutes(ts, us, WonBy(s.address));
      SumPermutes(ts, us, LostBy(s.address));
      assert forall t :: t in ts <==> t in multiset(us);
    }
    SortedIsUnique(Scores(Snapshot(rt, es)), Scores(Snapshot(rt, fs)));
  }

  // ----- conservation -----

  function PlayerPoints(): Player -> int { (x: Player) => x.points }
  function TouchPoints(): Touch -> int { (t: Touch) => t.points }

  lemma {:induction false} ApplyConserves(players: seq<Player>, t: Touch)
    ensures Sum(Apply(players, t), PlayerPoints()) == Sum(players, PlayerPoints()) + t.points
  {
    if players != [] && players[0].address != t.address {
      ApplyConserves(players[1..], t);
    }
  }

  lemma {:induction false} ApplyAllConserves(players: seq<Player>, ts: seq<Touch>)
    ensures Sum(ApplyAll(players, ts), PlayerPoints()) == Sum(players, PlayerPoints()) + Sum(ts, TouchPoints())
    decreases |ts|
  {
    if ts != [] {
      ApplyConserves(players, ts[0]);
      ApplyAllConserves(Apply(players, ts[0]), ts[1..]);
    }
  }

  /** The points on the board are exactly the points the events give. */
  lemma PointsAreConserved(rt: Runtime, es: seq<Event>)
    ensures Sum(Snapshot(rt, es), PlayerPoints()) == Sum(AllTouches(rt, es), TouchPoints())
  {
    var players := ApplyAll([], AllTouches(rt, es));
    ApplyAllConserves([], AllTouches(rt, es));
    SumPermutes(Snapshot(rt, es), players, PlayerPoints());
  }

  // ----- the batched insert -----

  const COLUMNS_PER_ROW := 5
  const MAX_PARAMS := 65535

  function CalculateRowsPerBatch(columnsPerRow: int, safetyMargin: int): int
    requires columnsPerRow > 0
  {
    (MAX_PARAMS - safetyMargin) / columnsPerRow
  }

  function Concat(batches: seq<seq<Player>>): seq<Player> {
    if batches == [] then [] else Concat(Front(batches)) + Last(batches)
  }

  /** The insert loop: the statements cover the rows once and in order, none is empty, and none needs
      more parameters than one statement may have. */
  method InsertInBatches(rows: seq<Player>) returns (statements: seq<seq<Player>>)
    ensures Concat(statements) == rows
    ensures forall b | b in statements :: 0 < |b| && |b| * COLUMNS_PER_ROW <= MAX_PARAMS
    ensures forall i | 0 <= i < |statements| - 1 :: (|statements[i]| + 1) * COLUMNS_PER_ROW > MAX_PARAMS - 10
  {
    var rowsPerBatch := CalculateRowsPerBatch(COLUMNS_PER_ROW, 10);
    statements := [];
    var i := 0;
    while i < |rows|
      invariant 0 <= i
      invariant Concat(statements) == rows[..if i < |rows| then i else |rows|]
      invariant forall b | b in statements :: 0 < |b| && |b| * COLUMNS_PER_ROW <= MAX_PARAMS
      invariant forall k | 0 <= k < |statements| :: i < |rows| || k < |statements| - 1 ==> |statements[k]| == rowsPerBatch
    {
      var batch := rows[i..if i + rowsPerBatch < |rows| then i + rowsPerBatch else |rows|];
      assert Front(statements + [batch]) == statements;
      statements := statements + [batch];
      i := i + rowsPerBatch;
    }
    assert rows[..|rows|] == rows;
  }
}
