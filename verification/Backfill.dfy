/**
  The replay path of `indexer/src/backfill.ts` (deduplicate, then accumulate) and the two jobs that
  rebuild market aggregates from the bets, `recomputeTotals.ts` and `recomputeBetCounts.ts`.
  A table is the sequence of its rows. Foreign keys are those of `db/migrations`: an audit row or a bet
  for a market that does not exist is refused.
 */
module Backfill {
  import opened Wrappers

  datatype Key = Key(txHash: string, eventIndex: nat)

  /** A row of `bets`, keyed on (market, bettor); also what one bet event contributes. */
  datatype Bet = Bet(market: int, bettor: string, net: int, gross: int, isYes: bool)

  datatype Market = Market(id: int, totalYes: int, totalNo: int, betCount: int, resolved: bool, outcome: bool, cancelled: bool)

  datatype Action =
    | MarketCreated(id: int)
    | MarketResolved(id: int, outcome: bool)
    | MarketCancelled(id: int)
    | BetPlaced(bet: Bet)
    | Other

  datatype Event = Event(key: Key, action: Action)

  /** `events` holds the keys of the audit rows. */
  datatype Tables = Tables(events: set<Key>, markets: seq<Market>, bets: seq<Bet>)

  // ----- the tables as the source updates them -----

  class Database {
    var tables: Tables

    constructor (tables: Tables)
      ensures this.tables == tables
    {
      this.tables := tables;
    }

    /** `writeEventToDb`: an event whose key is already on record changes nothing. */
    method WriteEventToDb(e: Event) returns (ok: bool)
      modifies this
      ensures (tables, ok) == Write(old(tables), e)
    {
      if e.key in tables.events {
        return true;
      }
      // An audit row for a missing market is refused, and that refusal is swallowed.
      var auditable := e.action.Other? || HasMarket(tables.markets, MarketOf(e.action));
      var events := if auditable then tables.events + {e.key} else tables.events;
      match e.action {
        case MarketCreated(id) =>
          tables := Tables(events, Create(tables.markets, id), tables.bets);
        case MarketResolved(id, outcome) =>
          var markets := tables.markets;
          for i := 0 to |markets|
            invariant |markets| == |tables.markets| && tables == old(tables)
            invariant forall j :: 0 <= j < |markets| ==>
              markets[j] == if j < i && tables.markets[j].id == id then tables.markets[j].(resolved := true, outcome := outcome) else tables.markets[j]
          {
            if markets[i].id == id {
              markets := markets[i := markets[i].(resolved := true, outcome := outcome)];
            }
          }
          assert markets == Resolve(tables.markets, id, outcome);
          tables := Tables(events, markets, tables.bets);
        case MarketCancelled(id) =>
          tables := Tables(events, Cancel(tables.markets, id), tables.bets);
        case BetPlaced(bet) =>
          if !auditable {
            return false;
          }
          var bets := UpsertRow(tables.bets, bet);
          tables := Tables(events, tables.markets, bets);
        case Other =>
          tables := tables.(events := events);
      }
      return true;
    }

    /** `processEventsInChunks` over one page: chunk by chunk, every event once and in order, up to the
        first failure. */
    method ProcessEventsInChunks(page: seq<Event>, chunkSize: nat) returns (ok: bool)
      requires chunkSize > 0
      modifies this
      ensures (tables, ok) == WriteAll(old(tables), page)
    {
      var i := 0;
      ok := true;
      while i < |page|
        invariant WriteAll(old(tables), page) == WriteAll(tables, if i < |page| then page[i..] else [])
        decreases |page| - i
      {
        var chunk := page[i..if i + chunkSize < |page| then i + chunkSize else |page|];
        for k := 0 to |chunk|
          invariant WriteAll(old(tables), page) == WriteAll(tables, page[i + k..])
        {
          assert page[i + k..][0] == page[i + k] && page[i + k..][1..] == page[i + k + 1..];
          ok := WriteEventToDb(chunk[k]);
          if !ok {
            return false;
          }
        }
        assert i + |chunk| == |page| ==> page[i + |chunk|..] == [];
        i := i + chunkSize;
      }
    }

    /** `recomputeMarketTotalsFromBets`: rewrites exactly the rows whose totals are off. */
    method RecomputeTotals() returns (checked: nat, corrected: nat)
      modifies this
      ensures tables == TotalsRecomputed(old(tables))
      ensures checked == |old(tables).markets| && corrected == |OffTotals(old(tables))|
    {
      checked, corrected := |tables.markets|, 0;
      var markets := tables.markets;
      for i := 0 to |markets|
        invariant |markets| == checked && tables == old(tables)
        invariant forall j :: 0 <= j < checked ==>
          markets[j] == if j < i then WithTotals(tables.markets[j], tables.bets) else tables.markets[j]
        invariant corrected == |Below(OffTotals(tables), i)|
      {
        OneMoreBelow(OffTotals(tables), i);
        var yes := SumSide(tables.bets, markets[i].id, true);
        var no := SumSide(tables.bets, markets[i].id, false);
        if markets[i].totalYes != yes || markets[i].totalNo != no {
          markets := markets[i := markets[i].(totalYes := yes, totalNo := no)];
          corrected := corrected + 1;
        }
      }
      assert Below(OffTotals(tables), checked) == OffTotals(tables);
      assert markets == TotalsRecomputed(tables).markets;
      tables := tables.(markets := markets);
    }

    /** `recomputeMarketBetCountsFromBets`. */
    method RecomputeBetCounts() returns (checked: nat, corrected: nat)
      modifies this
      ensures tables == CountsRecomputed(old(tables))
      ensures checked == |old(tables).markets| && corrected == |OffCounts(old(tables))|
    {
      checked, corrected := |tables.markets|, 0;
      var markets := tables.markets;
      for i := 0 to |markets|
        invariant |markets| == checked && tables == old(tables)
        invariant forall j :: 0 <= j < checked ==>
          markets[j] == if j < i then WithCount(tables.markets[j], tables.bets) else tables.markets[j]
        invariant corrected == |Below(OffCounts(tables), i)|
      {
        OneMoreBelow(OffCounts(tables), i);
        var count := CountRows(tables.bets, markets[i].id);
        if markets[i].betCount != count {
          markets := markets[i := markets[i].(betCount := count)];
          corrected := corrected + 1;
        }
      }
      assert Below(OffCounts(tables), checked) == OffCounts(tables);
      assert markets == CountsRecomputed(tables).markets;
      tables := tables.(markets := markets);
    }
  }

  ghost function Below(s: set<nat>, i: nat): set<nat> { set j | j in s && j < i }

  lemma OneMoreBelow(s: set<nat>, i: nat)
    ensures |Below(s, i + 1)| == |Below(s, i)| + if i in s then 1 else 0
  {
    assert Below(s, i + 1) == if i in s then Below(s, i) + {i} else Below(s, i);
  }

  /** INSERT … ON CONFLICT (market_id, bettor) DO UPDATE, by search over the rows. */
  method UpsertRow(bets: seq<Bet>, b: Bet) returns (r: seq<Bet>)
    ensures r == Upsert(bets, b)
  {
    var i := 0;
    while i < |bets| && !SamePosition(bets[i], b)
      invariant 0 <= i <= |bets|
      invariant forall j :: 0 <= j < i ==> !SamePosition(bets[j], b)
    {
      i := i + 1;
    }
    UpsertAt(bets, b, i);
    r := if i < |bets| then bets[i := Merge(bets[i], b)] else bets + [b];
  }

  // ----- what one event does -----

  predicate HasMarket(markets: seq<Market>, id: int) { exists i :: 0 <= i < |markets| && markets[i].id == id }

  function MarketOf(a: Action): int
    requires !a.Other?
  {
    if a.BetPlaced? then a.bet.market else a.id
  }

  function Create(markets: seq<Market>, id: int): seq<Market> {
    if HasMarket(markets, id) then markets else markets + [Market(id, 0, 0, 0, false, false, false)]
  }

  function Resolve(markets: seq<Market>, id: int, outcome: bool): seq<Market> {
    seq(|markets|, i requires 0 <= i < |markets| => if markets[i].id == id then markets[i].(resolved := true, outcome := outcome) else markets[i])
  }

  function Cancel(markets: seq<Market>, id: int): seq<Market> {
    seq(|markets|, i requires 0 <= i < |markets| => if markets[i].id == id then markets[i].(cancelled := true) else markets[i])
  }

  predicate SamePosition(a: Bet, b: Bet) { a.market == b.market && a.bettor == b.bettor }

  /** The DO UPDATE: amounts add up, the side of the stored row stays. */
  function Merge(row: Bet, b: Bet): Bet { row.(net := row.net + b.net, gross := row.gross + b.gross) }

  function Upsert(bets: seq<Bet>, b: Bet): seq<Bet> {
    if bets == [] then [b]
    else if SamePosition(bets[0], b) then [Merge(bets[0], b)] + bets[1..]
    else [bets[0]] + Upsert(bets[1..], b)
  }

  lemma {:induction false} UpsertAt(bets: seq<Bet>, b: Bet, i: nat)
    requires i <= |bets| && (forall j :: 0 <= j < i ==> !SamePosition(bets[j], b))
    requires i < |bets| ==> SamePosition(bets[i], b)
    ensures Upsert(bets, b) == if i < |bets| then bets[i := Merge(bets[i], b)] else bets + [b]
  {
    if bets != [] && i > 0 {
      UpsertAt(bets[1..], b, i - 1);
    }
  }

  function Write(t: Tables, e: Event): (Tables, bool) {
    if e.key in t.events then (t, true)
    else
      var auditable := e.action.Other? || HasMarket(t.markets, MarketOf(e.action));
      var events := if auditable then t.events + {e.key} else t.events;
      match e.action
      case MarketCreated(id) => (Tables(events, Create(t.markets, id), t.bets), true)
      case MarketResolved(id, outcome) => (Tables(events, Resolve(t.markets, id, outcome), t.bets), true)
      case MarketCancelled(id) => (Tables(events, Cancel(t.markets, id), t.bets), true)
      case BetPlaced(bet) => if auditable then (Tables(events, t.markets, Upsert(t.bets, bet)), true) else (t, false)
      case Other => (t.(events := events), true)
  }

  /** A page: in order, up to the first call that throws. */
  function WriteAll(t: Tables, es: seq<Event>): (Tables, bool)
    decreases |es|
  {
    if es == [] then (t, true)
    else
      var (t', ok) := Write(t, es[0]);
      if ok then WriteAll(t', es[1..]) else (t', false)
  }

  // ----- aggregates over the bets table -----

  function SumSide(bets: seq<Bet>, m: int, isYes: bool): int {
    if bets == [] then 0
    else (if bets[0].market == m && bets[0].isYes == isYes then bets[0].net else 0) + SumSide(bets[1..], m, isYes)
  }

  function SumNet(bets: seq<Bet>, m: int): int {
    if bets == [] then 0 else (if bets[0].market == m then bets[0].net else 0) + SumNet(bets[1..], m)
  }

  function CountRows(bets: seq<Bet>, m: int): nat {
    if bets == [] then 0 else (if bets[0].market == m then 1 else 0) + CountRows(bets[1..], m)
  }

  function Bettors(bets: seq<Bet>, m: int): set<string> { set b | b in bets && b.market == m :: b.bettor }

  function WithTotals(x: Market, bets: seq<Bet>): Market {
    x.(totalYes := SumSide(bets, x.id, true), totalNo := SumSide(bets, x.id, false))
  }

  function WithCount(x: Market, bets: seq<Bet>): Market { x.(betCount := CountRows(bets, x.id)) }

  /** The tables after each job. */
  function TotalsRecomputed(t: Tables): Tables {
    t.(markets := seq(|t.markets|, i requires 0 <= i < |t.markets| => WithTotals(t.markets[i], t.bets)))
  }

  function CountsRecomputed(t: Tables): Tables {
    t.(markets := seq(|t.markets|, i requires 0 <= i < |t.markets| => WithCount(t.markets[i], t.bets)))
  }

  function Recomputed(t: Tables): Tables { CountsRecomputed(TotalsRecomputed(t)) }

  /** The rows whose stored totals, respectively counts, differ from what the bets say. */
  function OffTotals(t: Tables): set<nat> { set i | 0 <= i < |t.markets| && t.markets[i] != WithTotals(t.markets[i], t.bets) }

  function OffCounts(t: Tables): set<nat> {
    set i | 0 <= i < |t.markets| && t.markets[i].betCount != CountRows(t.bets, t.markets[i].id)
  }

  // ----- replays: any list of events, with duplicates, in any order -----

  /** Completed calls over a list; a refused bet leaves the tables as they are. */
  function Replay(t: Tables, es: seq<Event>): Tables
    decreases |es|
  {
    if es == [] then t else Replay(Write(t, es[0]).0, es[1..])
  }

  /** Two deliveries under one key are the same event. */
  predicate Consistent(es: seq<Event>) { forall d, e | d in es && e in es :: d.key == e.key ==> d == e }

  predicate NoCreations(es: seq<Event>) { forall e | e in es :: !e.action.MarketCreated? }

  /** A bet on an existing market. */
  predicate Counts(markets: seq<Market>, e: Event) { e.action.BetPlaced? && HasMarket(markets, e.action.bet.market) }

  /** The distinct bets a list adds to the tables. */
  function NewBets(t: Tables, es: seq<Event>): set<Event> { set e | e in es && Counts(t.markets, e) && e.key !in t.events }

  /** The sum of `f` over distinct events. */
  ghost function SumOver(s: set<Event>, f: Event -> int): int {
    if s == {} then 0 else var e :| e in s; f(e) + SumOver(s - {e}, f)
  }

  lemma {:induction false} SumOverRemove(s: set<Event>, e: Event, f: Event -> int)
    requires e in s
    ensures SumOver(s, f) == f(e) + SumOver(s - {e}, f)
    decreases |s|
  {
    var d :| d in s && SumOver(s, f) == f(d) + SumOver(s - {d}, f);
    if d != e {
      SumOverRemove(s - {d}, e, f);
      SumOverRemove(s - {e}, d, f);
      assert s - {d} - {e} == s - {e} - {d};
    }
  }

  /** Of numbers that are not negative, a sum is zero exactly when all of them are. */
  lemma {:induction false} SumOverZeroIff(s: set<Event>, f: Event -> int)
    requires forall e | e in s :: f(e) >= 0
    ensures SumOver(s, f) >= 0
    ensures SumOver(s, f) == 0 <==> forall e | e in s :: f(e) == 0
  {
    if s != {} {
      var e :| e in s;
      SumOverRemove(s, e, f);
      SumOverZeroIff(s - {e}, f);
    }
  }

  /** What an event stakes on market `m`; on one side of it; and on one side, by one bettor. */
  function StakeOn(m: int): Event -> int {
    (e: Event) => if e.action.BetPlaced? && e.action.bet.market == m then e.action.bet.net else 0
  }

  function StakeOnSide(m: int, side: bool): Event -> int {
    (e: Event) => if e.action.BetPlaced? && e.action.bet.market == m && e.action.bet.isYes == side then e.action.bet.net else 0
  }

  function StakeBy(m: int, a: string, side: bool): Event -> int {
    (e: Event) => if BetAt(e, m, a) && e.action.bet.isYes == side then e.action.bet.net else 0
  }

  predicate BetAt(e: Event, m: int, a: string) {
    e.action.BetPlaced? && e.action.bet.market == m && e.action.bet.bettor == a
  }

  /** The sum of net amounts on market `m`, over distinct events. */
  ghost function NetOf(s: set<Event>, m: int): int { SumOver(s, StakeOn(m)) }

  function BettorsOf(s: set<Event>, m: int): set<string> {
    set e | e in s && e.action.BetPlaced? && e.action.bet.market == m :: e.action.bet.bettor
  }

  predicate Unique(bets: seq<Bet>) { forall i, j | 0 <= i < j < |bets| :: !SamePosition(bets[i], bets[j]) }

  // ----- one upsert -----

  lemma {:induction false} UpsertNet(bets: seq<Bet>, b: Bet, m: int)
    ensures SumNet(Upsert(bets, b), m) == SumNet(bets, m) + if b.market == m then b.net else 0
  {
    if bets != [] && !SamePosition(bets[0], b) {
      UpsertNet(bets[1..], b, m);
    }
  }

  predicate Holds(bets: seq<Bet>, m: int, a: string) { exists i :: 0 <= i < |bets| && bets[i].market == m && bets[i].bettor == a }

  lemma {:induction false} UpsertHolds(bets: seq<Bet>, b: Bet, m: int, a: string)
    ensures Holds(Upsert(bets, b), m, a) <==> Holds(bets, m, a) || (b.market == m && b.bettor == a)
  {
    var r := Upsert(bets, b);
    if bets == [] {
      assert r[0] == b;
    } else if SamePosition(bets[0], b) {
      assert r[0] == Merge(bets[0], b);
      forall i | 0 <= i < |bets| ensures r[i].market == bets[i].market && r[i].bettor == bets[i].bettor { }
    } else {
      UpsertHolds(bets[1..], b, m, a);
      HoldsCons(bets[0], bets[1..], m, a);
      HoldsCons(bets[0], Upsert(bets[1..], b), m, a);
      assert [bets[0]] + bets[1..] == bets;
    }
  }

  lemma HoldsCons(x: Bet, rest: seq<Bet>, m: int, a: string)
    ensures Holds([x] + rest, m, a) <==> (x.market == m && x.bettor == a) || Holds(rest, m, a)
  {
    var all := [x] + rest;
    if Holds(rest, m, a) {
      var i :| 0 <= i < |rest| && rest[i].market == m && rest[i].bettor == a;
      assert all[i + 1].market == m && all[i + 1].bettor == a;
    }
    if x.market == m && x.bettor == a {
      assert all[0].market == m && all[0].bettor == a;
    }
    if Holds(all, m, a) {
      var i :| 0 <= i < |all| && all[i].market == m && all[i].bettor == a;
      if i > 0 {
        assert rest[i - 1].market == m && rest[i - 1].bettor == a;
      }
    }
  }

  lemma {:induction false} UpsertUnique(bets: seq<Bet>, b: Bet)
    requires Unique(bets)
    ensures Unique(Upsert(bets, b))
  {
    if bets != [] && !SamePosition(bets[0], b) {
      var rest := bets[1..];
      assert Unique(rest);
      UpsertUnique(rest, b);
      var r := Upsert(rest, b);
      forall j | 0 <= j < |r| ensures !SamePosition(bets[0], r[j]) {
        assert Holds(r, r[j].market, r[j].bettor);
        UpsertHolds(rest, b, r[j].market, r[j].bettor);
      }
    }
  }

  lemma BettorsCons(bets: seq<Bet>, m: int)
    requires bets != []
    ensures Bettors(bets, m) == Bettors(bets[1..], m) + if bets[0].market == m then {bets[0].bettor} else {}
  {
    assert bets == [bets[0]] + bets[1..];
  }

  lemma {:induction false} CountIsBettors(bets: seq<Bet>, m: int)
    requires Unique(bets)
    ensures CountRows(bets, m) == |Bettors(bets, m)|
  {
    if bets == [] {
      assert Bettors(bets, m) == {};
    } else {
      CountIsBettors(bets[1..], m);
      BettorsCons(bets, m);
      assert bets[0].market == m ==> bets[0].bettor !in Bettors(bets[1..], m);
    }
  }

  lemma {:induction false} SidesAddUp(bets: seq<Bet>, m: int)
    ensures SumSide(bets, m, true) + SumSide(bets, m, false) == SumNet(bets, m)
  {
    if bets != [] {
      SidesAddUp(bets[1..], m);
    }
  }

  lemma BettorsHold(bets: seq<Bet>, m: int, a: string)
    ensures a in Bettors(bets, m) <==> Holds(bets, m, a)
  {
    if Holds(bets, m, a) {
      var i :| 0 <= i < |bets| && bets[i].market == m && bets[i].bettor == a;
      assert bets[i] in bets;
    }
  }

  // ----- whole replays -----

  lemma WriteKeepsMarkets(t: Tables, e: Event, m: int)
    requires !e.action.MarketCreated?
    ensures HasMarket(Write(t, e).0.markets, m) <==> HasMarket(t.markets, m)
  {
    var t' := Write(t, e).0;
    assert |t'.markets| == |t.markets| && forall i | 0 <= i < |t.markets| :: t'.markets[i].id == t.markets[i].id;
  }

  /** The bets a list adds are its first event's, if that counts and is new, and what the rest then adds. */
  lemma NewBetsStep(t: Tables, es: seq<Event>)
    requires es != [] && Consistent(es) && NoCreations(es)
    ensures var e := es[0]; var rest := NewBets(Write(t, e).0, es[1..]);
            if e.key !in t.events && Counts(t.markets, e) then NewBets(t, es) == rest + {e} && e !in rest else NewBets(t, es) == rest
  {
    var e := es[0];
    assert e in es;
    var t' := Write(t, e).0;
    var isNew := e.key !in t.events && Counts(t.markets, e);
    forall d | d in es ensures Counts(t'.markets, d) <==> Counts(t.markets, d) {
      if d.action.BetPlaced? {
        WriteKeepsMarkets(t, e, d.action.bet.market);
      }
    }
    assert forall d | d in es[1..] :: d in es;
    forall d ensures d in NewBets(t, es) <==> d in NewBets(t', es[1..]) || (isNew && d == e) {
      if d in NewBets(t, es) && d != e {
        assert d in es[1..] && d.key != e.key;
      }
    }
  }

  /** From unique positions: the nets add up over the distinct new bets, the bettors are the old ones and
      theirs, and positions stay unique. */
  lemma {:induction false} ReplayAddsUp(t: Tables, es: seq<Event>, m: int)
    requires Unique(t.bets) && Consistent(es) && NoCreations(es)
    ensures var t' := Replay(t, es);
            && Unique(t'.bets)
            && SumNet(t'.bets, m) == SumNet(t.bets, m) + NetOf(NewBets(t, es), m)
            && Bettors(t'.bets, m) == Bettors(t.bets, m) + BettorsOf(NewBets(t, es), m)
    decreases |es|
  {
    if es == [] {
      assert NewBets(t, es) == {} && BettorsOf({}, m) == {};
    } else {
      var e, t1 := es[0], Write(t, es[0]).0;
      assert e in es && (forall d | d in es[1..] :: d in es);
      NewBetsStep(t, es);
      if e.key !in t.events && Counts(t.markets, e) {
        UpsertUnique(t.bets, e.action.bet);
        UpsertNet(t.bets, e.action.bet, m);
        SumOverRemove(NewBets(t, es), e, StakeOn(m));
        assert NewBets(t, es) - {e} == NewBets(t1, es[1..]);
        OneBettorMore(t, e, NewBets(t1, es[1..]), m);
      }
      ReplayAddsUp(t1, es[1..], m);
    }
  }

  lemma OneBettorMore(t: Tables, e: Event, rest: set<Event>, m: int)
    requires e.action.BetPlaced?
    ensures Bettors(Upsert(t.bets, e.action.bet), m) + BettorsOf(rest, m) == Bettors(t.bets, m) + BettorsOf(rest + {e}, m)
  {
    var b := e.action.bet;
    forall a ensures a in Bettors(Upsert(t.bets, b), m) + BettorsOf(rest, m) <==> a in Bettors(t.bets, m) + BettorsOf(rest + {e}, m) {
      BettorsHold(Upsert(t.bets, b), m, a);
      BettorsHold(t.bets, m, a);
      UpsertHolds(t.bets, b, m, a);
      BettorsOfMore(rest, e, m);
    }
  }

  lemma BettorsOfMore(rest: set<Event>, e: Event, m: int)
    requires e.action.BetPlaced?
    ensures BettorsOf(rest + {e}, m) == BettorsOf(rest, m) + (if e.action.bet.market == m then {e.action.bet.bettor} else {})
  {
    assert e in rest + {e};
  }

  /** After any replay into empty bets and the two recomputes, every market row's totals add up to the net
      amounts of the distinct bets on it, and its count is the number of distinct bettors. */
  lemma AggregatesAfterReplay(t: Tables, es: seq<Event>, x: Market)
    requires t.bets == [] && t.events == {} && Consistent(es) && NoCreations(es)
    requires x in Recomputed(Replay(t, es)).markets
    ensures var distinct := set e | e in es && Counts(t.markets, e);
            x.totalYes + x.totalNo == NetOf(distinct, x.id) && x.betCount == |BettorsOf(distinct, x.id)|
  {
    ReplayAddsUp(t, es, x.id);
    var bets := Replay(t, es).bets;
    RowIsRecomputed(Replay(t, es), x);
    SidesAddUp(bets, x.id);
    CountIsBettors(bets, x.id);
    assert NewBets(t, es) == set e | e in es && Counts(t.markets, e);
    assert Bettors([], x.id) == {};
  }

  lemma RowIsRecomputed(t: Tables, x: Market)
    requires x in Recomputed(t).markets
    ensures x.totalYes == SumSide(t.bets, x.id, true) && x.totalNo == SumSide(t.bets, x.id, false)
    ensures x.betCount == CountRows(t.bets, x.id)
  {
    var i :| 0 <= i < |t.markets| && Recomputed(t).markets[i] == x;
    assert TotalsRecomputed(t).markets[i] == WithTotals(t.markets[i], t.bets);
  }

  /** So the order of delivery, and how often an event is delivered, do not matter for either. */
  lemma DeliveryOrderDoesNotMatter(t: Tables, es: seq<Event>, fs: seq<Event>, x: Market, y: Market)
    requires t.bets == [] && t.events == {} && Consistent(es) && NoCreations(es)
    requires forall e :: e in es <==> e in fs
    requires x in Recomputed(Replay(t, es)).markets && y in Recomputed(Replay(t, fs)).markets && x.id == y.id
    ensures x.totalYes + x.totalNo == y.totalYes + y.totalNo && x.betCount == y.betCount
  {
    AggregatesAfterReplay(t, es, x);
    AggregatesAfterReplay(t, fs, y);
    assert (set e | e in es && Counts(t.markets, e)) == (set e | e in fs && Counts(t.markets, e));
  }

  /** Replaying a whole list again leaves the bets untouched, row by row. */
  lemma {:induction false} ReplayAgainChangesNoBet(t: Tables, es: seq<Event>)
    requires NoCreations(es) && (forall e | e in es :: Counts(t.markets, e) ==> e.key in t.events)
    ensures Replay(t, es).bets == t.bets
    decreases |es|
  {
    if es != [] {
      var e, t1 := es[0], Write(t, es[0]).0;
      assert e in es && (forall d | d in es[1..] :: d in es);
      forall d | d in es[1..] && Counts(t1.markets, d) ensures d.key in t1.events {
        WriteKeepsMarkets(t, e, d.action.bet.market);
      }
      ReplayAgainChangesNoBet(t1, es[1..]);
    }
  }

  lemma {:induction false} ReplayRecordsItsBets(t: Tables, es: seq<Event>, k: int)
    requires NoCreations(es)
    ensures t.events <= Replay(t, es).events
    ensures HasMarket(Replay(t, es).markets, k) <==> HasMarket(t.markets, k)
    ensures forall e | e in es && Counts(t.markets, e) :: e.key in Replay(t, es).events
    decreases |es|
  {
    if es != [] {
      var e, t1 := es[0], Write(t, es[0]).0;
      assert e in es && (forall d | d in es[1..] :: d in es);
      WriteKeepsMarkets(t, e, k);
      ReplayRecordsItsBets(t1, es[1..], k);
      forall d | d in es && Counts(t.markets, d) ensures d.key in Replay(t, es).events {
        WriteKeepsMarkets(t, e, d.action.bet.market);
      }
    }
  }

  lemma ReplayIsIdempotent(t: Tables, es: seq<Event>)
    requires NoCreations(es)
    ensures Replay(Replay(t, es), es).bets == Replay(t, es).bets
  {
    var t1 := Replay(t, es);
    forall e | e in es && Counts(t1.markets, e) ensures e.key in t1.events {
      ReplayRecordsItsBets(t, es, e.action.bet.market);
    }
    ReplayAgainChangesNoBet(t1, es);
  }

  /** A second recompute finds nothing to correct, and changes nothing. */
  lemma RecomputeIsIdempotent(t: Tables)
    ensures var u := Recomputed(t);
            OffTotals(u) == {} && OffCounts(u) == {} && Recomputed(u) == u
  {
    var u := Recomputed(t);
    forall i | 0 <= i < |t.markets| ensures u.markets[i] == WithCount(WithTotals(t.markets[i], t.bets), t.bets) {
      assert TotalsRecomputed(t).markets[i] == WithTotals(t.markets[i], t.bets);
    }
    assert TotalsRecomputed(u).markets == u.markets;
    assert CountsRecomputed(u).markets == u.markets;
  }

  // ----- which side the totals land on -----

  /** The stored row of a position. */
  function RowAt(bets: seq<Bet>, m: int, a: string): Option<Bet> {
    if bets == [] then None
    else if bets[0].market == m && bets[0].bettor == a then Some(bets[0])
    else RowAt(bets[1..], m, a)
  }

  lemma {:induction false} UpsertRowAt(bets: seq<Bet>, b: Bet, m: int, a: string)
    ensures RowAt(Upsert(bets, b), m, a) ==
              if b.market == m && b.bettor == a
              then Some(if RowAt(bets, m, a).Some? then Merge(RowAt(bets, m, a).value, b) else b)
              else RowAt(bets, m, a)
  {
    if bets != [] {
      assert ([bets[0]] + Upsert(bets[1..], b))[1..] == Upsert(bets[1..], b);
      UpsertRowAt(bets[1..], b, m, a);
    }
  }

  function NetAt(bets: seq<Bet>, m: int, a: string): int { if RowAt(bets, m, a).Some? then RowAt(bets, m, a).value.net else 0 }

  /** What the stored row of a position puts on one side. */
  function SideAt(bets: seq<Bet>, m: int, a: string, side: bool): int {
    var row := RowAt(bets, m, a);
    if row.Some? && row.value.isYes == side then row.value.net else 0
  }

  /** A row's net is the sum of its position's bets, on whichever side; its side is that of one of them. */
  lemma StakesStep(t: Tables, es: seq<Event>, m: int, a: string, side: bool)
    requires es != [] && Consistent(es) && NoCreations(es)
    ensures SumOver(NewBets(t, es), StakeBy(m, a, side))
         == SumOver(NewBets(Write(t, es[0]).0, es[1..]), StakeBy(m, a, side))
            + if es[0].key !in t.events && Counts(t.markets, es[0]) then StakeBy(m, a, side)(es[0]) else 0
  {
    NewBetsStep(t, es);
    if es[0].key !in t.events && Counts(t.markets, es[0]) {
      SumOverRemove(NewBets(t, es), es[0], StakeBy(m, a, side));
      assert NewBets(t, es) - {es[0]} == NewBets(Write(t, es[0]).0, es[1..]);
    }
  }

  /** A position's net amount after a replay. */
  lemma {:induction false} ReplayNet(t: Tables, es: seq<Event>, m: int, a: string)
    requires Consistent(es) && NoCreations(es)
    ensures NetAt(Replay(t, es).bets, m, a) == NetAt(t.bets, m, a) + SumOver(NewBets(t, es), StakeBy(m, a, true))
                                               + SumOver(NewBets(t, es), StakeBy(m, a, false))
    decreases |es|
  {
    if es == [] {
      assert NewBets(t, es) == {};
    } else {
      var e, t1 := es[0], Write(t, es[0]).0;
      assert e in es && (forall d | d in es[1..] :: d in es);
      StakesStep(t, es, m, a, true);
      StakesStep(t, es, m, a, false);
      ReplayNet(t1, es[1..], m, a);
      if e.key !in t.events && Counts(t.markets, e) {
        UpsertRowAt(t.bets, e.action.bet, m, a);
      }
    }
  }

  /** Its row stays, on the side it had or on that of a new bet. */
  lemma {:induction false} ReplayRow(t: Tables, es: seq<Event>, m: int, a: string)
    requires Consistent(es) && NoCreations(es)
    ensures var was, row, added := RowAt(t.bets, m, a), RowAt(Replay(t, es).bets, m, a), NewBets(t, es);
            if row.None? then was.None? && forall e | e in added :: !BetAt(e, m, a)
            else if was.Some? then row.value.isYes == was.value.isYes
            else exists e :: e in added && BetAt(e, m, a) && e.action.bet.isYes == row.value.isYes
    decreases |es|
  {
    if es == [] {
      assert NewBets(t, es) == {};
    } else {
      var e, t1 := es[0], Write(t, es[0]).0;
      assert e in es && (forall d | d in es[1..] :: d in es);
      NewBetsStep(t, es);
      ReplayRow(t1, es[1..], m, a);
      if e.key !in t.events && Counts(t.markets, e) {
        UpsertRowAt(t.bets, e.action.bet, m, a);
      }
    }
  }

  predicate PositiveBets(es: seq<Event>) { forall e | e in es && e.action.BetPlaced? :: e.action.bet.net > 0 }

  /** The position's row puts on each side what its distinct bets put there. */
  ghost predicate SidesExact(bets: seq<Bet>, distinct: set<Event>, m: int, a: string) {
    forall side: bool :: SideAt(bets, m, a, side) == SumOver(distinct, StakeBy(m, a, side))
  }

  predicate AllOnOneSide(distinct: set<Event>, m: int, a: string) {
    forall d, e | d in distinct && e in distinct && BetAt(d, m, a) && BetAt(e, m, a) :: d.action.bet.isYes == e.action.bet.isYes
  }

  /** After any replay into empty bets, a position counts on each side exactly what its distinct bets put
      there if and only if those on the other side than its row's add up to nothing... */
  lemma PositionSides(t: Tables, es: seq<Event>, m: int, a: string)
    requires t.bets == [] && t.events == {} && Consistent(es) && NoCreations(es)
    ensures var bets, distinct := Replay(t, es).bets, NewBets(t, es);
            var row := RowAt(bets, m, a);
            if row.None? then forall e | e in distinct :: !BetAt(e, m, a)
            else
              && (exists e :: e in distinct && BetAt(e, m, a) && e.action.bet.isYes == row.value.isYes)
              && (SidesExact(bets, distinct, m, a) <==> SumOver(distinct, StakeBy(m, a, !row.value.isYes)) == 0)
  {
    var bets, distinct := Replay(t, es).bets, NewBets(t, es);
    ReplayRow(t, es, m, a);
    ReplayNet(t, es, m, a);
    var row := RowAt(bets, m, a);
    if row.Some? {
      var side := row.value.isYes;
      assert SideAt(bets, m, a, !side) == 0 && SideAt(bets, m, a, side) == row.value.net;
    }
  }

  /** ...and, its bets being positive, if and only if all of them are on one side: the side of the first is
      never changed. It is said per position, for in a market's totals two positions may err in opposite
      directions. */
  lemma PositionSideExactIff(t: Tables, es: seq<Event>, m: int, a: string)
    requires t.bets == [] && t.events == {} && Consistent(es) && NoCreations(es) && PositiveBets(es)
    ensures SidesExact(Replay(t, es).bets, NewBets(t, es), m, a) <==> AllOnOneSide(NewBets(t, es), m, a)
  {
    var bets, distinct := Replay(t, es).bets, NewBets(t, es);
    PositionSides(t, es, m, a);
    var row := RowAt(bets, m, a);
    if row.Some? {
      var f := StakeBy(m, a, !row.value.isYes);
      SumOverZeroIff(distinct, f);
      assert forall e | e in distinct && BetAt(e, m, a) && e.action.bet.isYes != row.value.isYes :: f(e) > 0;
    } else {
      SumOverZeroIff(distinct, StakeBy(m, a, true));
      SumOverZeroIff(distinct, StakeBy(m, a, false));
    }
  }

  // ----- a market whose positions are one-sided -----

  /** The bets that the list adds to market `m` agree with each other, and with the rows, position by
      position. */
  predicate OneSided(t: Tables, es: seq<Event>, m: int) {
    && (forall d, e | d in NewBets(t, es) && e in NewBets(t, es) && d.action.bet.market == m && SamePosition(d.action.bet, e.action.bet) ::
          d.action.bet.isYes == e.action.bet.isYes)
    && (forall e | e in NewBets(t, es) && e.action.bet.market == m ::
          var row := RowAt(t.bets, m, e.action.bet.bettor); row.Some? ==> row.value.isYes == e.action.bet.isYes)
  }

  lemma {:induction false} UpsertSide(bets: seq<Bet>, b: Bet, m: int, side: bool)
    ensures var row := RowAt(bets, b.market, b.bettor);
            SumSide(Upsert(bets, b), m, side) == SumSide(bets, m, side)
              + if b.market == m && (if row.Some? then row.value.isYes else b.isYes) == side then b.net else 0
  {
    if bets != [] && !SamePosition(bets[0], b) {
      UpsertSide(bets[1..], b, m, side);
      assert ([bets[0]] + Upsert(bets[1..], b))[1..] == Upsert(bets[1..], b);
    }
  }

  lemma {:induction false} ReplaySides(t: Tables, es: seq<Event>, m: int, side: bool)
    requires Consistent(es) && NoCreations(es) && OneSided(t, es, m)
    ensures SumSide(Replay(t, es).bets, m, side) == SumSide(t.bets, m, side) + SumOver(NewBets(t, es), StakeOnSide(m, side))
    decreases |es|
  {
    if es == [] {
      assert NewBets(t, es) == {};
    } else {
      var e, t1 := es[0], Write(t, es[0]).0;
      assert e in es && (forall d | d in es[1..] :: d in es);
      NewBetsStep(t, es);
      OneSidedStep(t, es, m);
      ReplaySides(t1, es[1..], m, side);
      if e.key !in t.events && Counts(t.markets, e) {
        UpsertSide(t.bets, e.action.bet, m, side);
        SumOverRemove(NewBets(t, es), e, StakeOnSide(m, side));
        assert NewBets(t, es) - {e} == NewBets(t1, es[1..]);
        assert e in NewBets(t, es);
      }
    }
  }

  lemma OneSidedStep(t: Tables, es: seq<Event>, m: int)
    requires es != [] && Consistent(es) && NoCreations(es) && OneSided(t, es, m)
    ensures OneSided(Write(t, es[0]).0, es[1..], m)
  {
    var e, t1 := es[0], Write(t, es[0]).0;
    NewBetsStep(t, es);
    forall d | d in NewBets(t1, es[1..]) && d.action.bet.market == m
      ensures var row := RowAt(t1.bets, m, d.action.bet.bettor); row.Some? ==> row.value.isYes == d.action.bet.isYes
    {
      assert d in NewBets(t, es);
      if e.key !in t.events && Counts(t.markets, e) {
        assert e in NewBets(t, es);
        UpsertRowAt(t.bets, e.action.bet, m, d.action.bet.bettor);
      }
    }
  }

  /** So after any replay into empty bets and the recompute, a market whose positions are each one-sided has
      on either side the sum of the distinct bets on that side. */
  lemma OneSidedTotals(t: Tables, es: seq<Event>, x: Market)
    requires t.bets == [] && t.events == {} && Consistent(es) && NoCreations(es) && OneSided(t, es, x.id)
    requires x in Recomputed(Replay(t, es)).markets
    ensures x.totalYes == SumOver(NewBets(t, es), StakeOnSide(x.id, true))
    ensures x.totalNo == SumOver(NewBets(t, es), StakeOnSide(x.id, false))
  {
    ReplaySides(t, es, x.id, true);
    ReplaySides(t, es, x.id, false);
    RowIsRecomputed(Replay(t, es), x);
  }

  /** One bettor puts 5 on yes and then 3 on no: the recomputed market has 8 on yes. */
  lemma TotalOnTheWrongSide()
    ensures var yes, no := Bet(1, "G", 5, 5, true), Bet(1, "G", 3, 3, false);
            var t := Tables({}, [Market(1, 0, 0, 0, false, false, false)], []);
            var es := [Event(Key("a", 0), BetPlaced(yes)), Event(Key("b", 0), BetPlaced(no))];
            var x := Market(1, 8, 0, 1, false, false, false);
            Recomputed(Replay(t, es)).markets == [x]
  {
    var yes, no := Bet(1, "G", 5, 5, true), Bet(1, "G", 3, 3, false);
    var markets := [Market(1, 0, 0, 0, false, false, false)];
    var t := Tables({}, markets, []);
    var d, e := Event(Key("a", 0), BetPlaced(yes)), Event(Key("b", 0), BetPlaced(no));
    assert markets[0].id == 1 && d.key != e.key by {
      assert "a"[0] != "b"[0];
    }
    var t1 := Write(t, d).0;
    assert t1 == Tables({d.key}, markets, [yes]);
    var t2 := Write(t1, e).0;
    assert t2 == Tables({d.key, e.key}, markets, [Bet(1, "G", 8, 8, true)]);
    assert [d, e][1..] == [e] && [e][1..] == [];
    assert Replay(t, [d, e]) == Replay(t1, [e]) == Replay(t2, []) == t2;
    assert t2.bets[1..] == [];
    assert SumSide(t2.bets, 1, true) == 8 && SumSide(t2.bets, 1, false) == 0 && CountRows(t2.bets, 1) == 1;
  }

  // ----- what a replay leaves in the market rows -----

  /** The `j`-th event is the first delivery of a new resolution of the market. */
  predicate IsVerdict(t: Tables, es: seq<Event>, j: nat, id: int) {
    && j < |es| && es[j].action.MarketResolved? && es[j].action.id == id && es[j].key !in t.events
    && forall i | 0 <= i < j :: es[i].key != es[j].key
  }

  /** No event of the list is a new resolution of the market. */
  predicate NoVerdict(t: Tables, es: seq<Event>, id: int) {
    forall e | e in es :: e.key in t.events || !e.action.MarketResolved? || e.action.id != id
  }

  /** A new cancellation of the market is in the list. */
  predicate NewlyCancelled(t: Tables, es: seq<Event>, id: int) {
    exists e | e in es :: e.key !in t.events && e.action == MarketCancelled(id)
  }

  /** The last of them. */
  predicate IsLastVerdict(t: Tables, es: seq<Event>, j: nat, id: int) {
    IsVerdict(t, es, j, id) && forall k | j < k < |es| :: !IsVerdict(t, es, k, id)
  }

  /** What a new event makes of a market row. */
  function Marked(x: Market, a: Action): Market {
    match a
    case MarketResolved(id, outcome) => if id == x.id then x.(resolved := true, outcome := outcome) else x
    case MarketCancelled(id) => if id == x.id then x.(cancelled := true) else x
    case _ => x
  }

  lemma WriteRow(t: Tables, e: Event, i: nat)
    requires i < |t.markets| && !e.action.MarketCreated?
    ensures var t', x := Write(t, e).0, t.markets[i];
            && |t'.markets| == |t.markets| && t'.markets[i] == (if e.key in t.events then x else Marked(x, e.action))
            && t.events <= t'.events <= t.events + {e.key}
            && ((e.action.MarketResolved? || e.action.MarketCancelled?) && e.action.id == x.id ==> e.key in t'.events)
  {
    assert HasMarket(t.markets, t.markets[i].id);
  }

  lemma VerdictLater(t: Tables, es: seq<Event>, j: nat, i: nat)
    requires es != [] && Consistent(es) && NoCreations(es) && i < |t.markets| && j + 1 < |es|
    ensures var t1 := Write(t, es[0]).0;
            IsVerdict(t, es, j + 1, t.markets[i].id) <==> IsVerdict(t1, es[1..], j, t.markets[i].id)
  {
    var t1, id := Write(t, es[0]).0, t.markets[i].id;
    assert es[0] in es && es[j + 1] in es;
    WriteRow(t, es[0], i);
    assert forall k | 0 < k <= j + 1 :: es[k] == es[1..][k - 1];
    if IsVerdict(t1, es[1..], j, id) {
      forall k | 0 <= k < j + 1 ensures es[k].key != es[j + 1].key {
        if k > 0 {
          assert es[1..][k - 1].key != es[1..][j].key;
        }
      }
    }
  }

  lemma VerdictsLater(t: Tables, es: seq<Event>, i: nat)
    requires es != [] && Consistent(es) && NoCreations(es) && i < |t.markets|
    requires !(es[0].key !in t.events && es[0].action.MarketResolved? && es[0].action.id == t.markets[i].id)
    ensures NoVerdict(t, es, t.markets[i].id) <==> NoVerdict(Write(t, es[0]).0, es[1..], t.markets[i].id)
  {
    var id := t.markets[i].id;
    assert es[0] in es && (forall d | d in es[1..] :: d in es) && es == [es[0]] + es[1..];
    WriteRow(t, es[0], i);
  }

  lemma CancelledLater(t: Tables, es: seq<Event>, i: nat)
    requires es != [] && Consistent(es) && NoCreations(es) && i < |t.markets|
    ensures var id := t.markets[i].id;
            NewlyCancelled(t, es, id) <==>
              (es[0].key !in t.events && es[0].action == MarketCancelled(id)) || NewlyCancelled(Write(t, es[0]).0, es[1..], id)
  {
    var id := t.markets[i].id;
    assert es[0] in es && (forall d | d in es[1..] :: d in es) && es == [es[0]] + es[1..];
    WriteRow(t, es[0], i);
    if e :| e in es && e.key !in t.events && e.action == MarketCancelled(id) {
      assert e == es[0] || e.key != es[0].key;
    }
  }

  /** The outcome is the row's, or that of the last new resolution; a redelivered one counts where it was
      first. */
  predicate OutcomeOk(t: Tables, es: seq<Event>, i: nat, outcome: bool)
    requires i < |t.markets|
  {
    && (NoVerdict(t, es, t.markets[i].id) ==> outcome == t.markets[i].outcome)
    && forall j | 0 <= j < |es| && IsLastVerdict(t, es, j, t.markets[i].id) :: outcome == es[j].action.outcome
  }

  /** After any replay a market is cancelled if it was or the list has a new cancellation of it, resolved if
      it was or the list has a new resolution, and its outcome is that of the last of these. Nothing else
      in the row changes. */
  lemma {:induction false} MarketAfterReplay(t: Tables, es: seq<Event>, i: nat)
    requires Consistent(es) && NoCreations(es) && i < |t.markets|
    ensures |Replay(t, es).markets| == |t.markets|
    ensures var x, y := t.markets[i], Replay(t, es).markets[i];
            && (y.cancelled <==> x.cancelled || NewlyCancelled(t, es, x.id))
            && (y.resolved <==> x.resolved || !NoVerdict(t, es, x.id))
            && OutcomeOk(t, es, i, y.outcome)
            && y == x.(resolved := y.resolved, outcome := y.outcome, cancelled := y.cancelled)
    decreases |es|
  {
    if es != [] {
      var t1 := Write(t, es[0]).0;
      assert es[0] in es && (forall d | d in es[1..] :: d in es);
      WriteRow(t, es[0], i);
      MarketAfterReplay(t1, es[1..], i);
      CancelledLater(t, es, i);
      OutcomeStep(t, es, i, Replay(t, es).markets[i].outcome);
      if IsVerdict(t, es, 0, t.markets[i].id) {
        assert !NoVerdict(t, es, t.markets[i].id);
      } else {
        VerdictsLater(t, es, i);
      }
    }
  }

  /** The first delivery of some new resolution, if there is one. */
  lemma VerdictIn(t: Tables, es: seq<Event>, id: int) returns (j: nat)
    requires !NoVerdict(t, es, id) && Consistent(es)
    ensures IsVerdict(t, es, j, id)
  {
    var e :| e in es && e.key !in t.events && e.action.MarketResolved? && e.action.id == id;
    j :| j < |es| && es[j] == e;
    j := FirstAt(es, j);
  }

  lemma {:induction false} FirstAt(es: seq<Event>, j: nat) returns (k: nat)
    requires j < |es| && Consistent(es)
    ensures k <= j && es[k] == es[j] && forall i | 0 <= i < k :: es[i].key != es[k].key
    decreases j
  {
    k := j;
    if i :| 0 <= i < j && es[i].key == es[j].key {
      assert es[i] in es && es[j] in es;
      k := FirstAt(es, i);
    }
  }

  lemma OutcomeStep(t: Tables, es: seq<Event>, i: nat, outcome: bool)
    requires es != [] && Consistent(es) && NoCreations(es)
    requires i < |t.markets| && |Write(t, es[0]).0.markets| == |t.markets|
    requires OutcomeOk(Write(t, es[0]).0, es[1..], i, outcome)
    ensures OutcomeOk(t, es, i, outcome)
  {
    var t1, rest, id := Write(t, es[0]).0, es[1..], t.markets[i].id;
    assert es[0] in es && (forall d | d in rest :: d in es);
    WriteRow(t, es[0], i);
    if NoVerdict(t, es, id) {
      VerdictsLater(t, es, i);
    }
    forall j | 0 <= j < |es| && IsLastVerdict(t, es, j, id) ensures outcome == es[j].action.outcome {
      forall k | 0 <= k < |rest| && j <= k ensures !IsVerdict(t1, rest, k, id) {
        VerdictLater(t, es, k, i);
      }
      if j > 0 {
        VerdictLater(t, es, j - 1, i);
        assert IsLastVerdict(t1, rest, j - 1, id);
      } else if !NoVerdict(t1, rest, id) {
        var q := VerdictIn(t1, rest, id);
        assert false;
      }
    }
  }

  // ----- pages, markets and audit keys -----

  /** A new bet on a market that does not exist: the call that throws. */
  predicate Throws(t: Tables, e: Event) {
    e.key !in t.events && e.action.BetPlaced? && forall x | x in t.markets :: x.id != e.action.bet.market
  }

  lemma HasMarketIff(markets: seq<Market>, id: int)
    ensures HasMarket(markets, id) <==> exists x | x in markets :: x.id == id
  {
    if HasMarket(markets, id) {
      var i :| 0 <= i < |markets| && markets[i].id == id;
      assert markets[i] in markets;
    }
  }

  lemma WriteOk(t: Tables, e: Event)
    ensures Write(t, e).1 <==> !Throws(t, e)
    ensures Throws(t, e) ==> Write(t, e).0 == t
  {
    if e.action.BetPlaced? {
      HasMarketIff(t.markets, e.action.bet.market);
    }
  }

  /** A page is written up to the first new bet on a missing market, and fails exactly if there is one. */
  lemma {:induction false} PageStopsAtTheFirstBadBet(t: Tables, es: seq<Event>) returns (k: nat)
    ensures k <= |es| && WriteAll(t, es) == (Replay(t, es[..k]), k == |es|)
    ensures forall i | 0 <= i < k :: !Throws(Replay(t, es[..i]), es[i])
    ensures k < |es| ==> Throws(Replay(t, es[..k]), es[k])
    decreases |es|
  {
    k := 0;
    if es == [] {
      assert es[..0] == [];
    } else {
      WriteOk(t, es[0]);
      if !Throws(t, es[0]) {
        var n := PageStopsAtTheFirstBadBet(Write(t, es[0]).0, es[1..]);
        k := n + 1;
        ReplayCons(t, es, k);
        forall i | 0 <= i < k ensures !Throws(Replay(t, es[..i]), es[i]) {
          if i > 0 {
            ReplayCons(t, es, i);
          } else {
            assert es[..0] == [];
          }
        }
      } else {
        assert es[..0] == [];
      }
    }
  }

  lemma ReplayCons(t: Tables, es: seq<Event>, i: nat)
    requires 0 < i <= |es|
    ensures Replay(t, es[..i]) == Replay(Write(t, es[0]).0, es[1..][..i - 1])
  {
    assert es[..i][0] == es[0] && es[..i][1..] == es[1..][..i - 1];
  }

  /** What creations do: a market exists after a replay if it did or the list newly creates it, every
      market that is new starts open and empty, and only settlement changes that. */
  lemma {:induction false} MarketsAreCreated(t: Tables, es: seq<Event>, id: int)
    requires Consistent(es)
    ensures HasMarket(Replay(t, es).markets, id) <==>
              HasMarket(t.markets, id) || exists e | e in es :: e.key !in t.events && e.action == MarketCreated(id)
    ensures !HasMarket(t.markets, id) && Unsettled(es, id) ==>
              forall x | x in Replay(t, es).markets && x.id == id :: x == Market(id, 0, 0, 0, false, false, false)
    decreases |es|
  {
    if es != [] {
      var t1 := Write(t, es[0]).0;
      assert es == [es[0]] + es[1..] && (forall d | d in es[1..] :: d in es);
      MarketsAreCreated(t1, es[1..], id);
      WriteCreates(t, es[0], id);
      if e :| e in es && e.key !in t.events && e.action == MarketCreated(id) {
        assert e in es[1..] || e == es[0];
        assert e.key in t1.events ==> e.key == es[0].key;
      }
      if !HasMarket(t.markets, id) && Unsettled(es, id) {
        NewMarketStaysOpen(t1, es[1..], id);
      }
    }
  }

  /** No event of the list settles the market. */
  predicate Unsettled(es: seq<Event>, id: int) {
    forall e | e in es :: !((e.action.MarketResolved? || e.action.MarketCancelled?) && e.action.id == id)
  }

  predicate OpenAndEmpty(markets: seq<Market>, id: int) {
    forall x | x in markets && x.id == id :: x == Market(id, 0, 0, 0, false, false, false)
  }

  lemma WriteCreates(t: Tables, e: Event, id: int)
    ensures HasMarket(Write(t, e).0.markets, id) <==>
              HasMarket(t.markets, id) || (e.key !in t.events && e.action == MarketCreated(id))
    ensures OpenAndEmpty(t.markets, id) && Unsettled([e], id) ==> OpenAndEmpty(Write(t, e).0.markets, id)
    ensures t.events <= Write(t, e).0.events <= t.events + {e.key}
  {
    var t' := Write(t, e).0;
    assert e in [e];
    if e.action.MarketCreated? {
      HasMarketIff(t.markets, id);
      HasMarketIff(t'.markets, id);
    } else {
      WriteKeepsMarkets(t, e, id);
      if OpenAndEmpty(t.markets, id) && Unsettled([e], id) {
        forall x | x in t'.markets && x.id == id ensures x == Market(id, 0, 0, 0, false, false, false) {
          var i :| 0 <= i < |t'.markets| && t'.markets[i] == x;
          WriteRow(t, e, i);
          assert t.markets[i] in t.markets;
        }
      }
    }
  }

  lemma {:induction false} NewMarketStaysOpen(t: Tables, es: seq<Event>, id: int)
    requires Unsettled(es, id) && OpenAndEmpty(t.markets, id)
    ensures OpenAndEmpty(Replay(t, es).markets, id)
    decreases |es|
  {
    if es != [] {
      assert es[0] in es && (forall d | d in es[1..] :: d in es);
      WriteCreates(t, es[0], id);
      NewMarketStaysOpen(Write(t, es[0]).0, es[1..], id);
    }
  }

  /** The audit rows after a replay with all its markets there: one key for each event that is about an
      existing market or about none. */
  lemma {:induction false} KeysAfterReplay(t: Tables, es: seq<Event>, key: Key)
    requires NoCreations(es)
    ensures key in Replay(t, es).events <==>
              key in t.events || exists e | e in es :: e.key == key && (e.action.Other? || exists x | x in t.markets :: x.id == MarketOf(e.action))
    decreases |es|
  {
    if es != [] {
      var t1 := Write(t, es[0]).0;
      assert es[0] in es && es == [es[0]] + es[1..] && (forall d | d in es[1..] :: d in es);
      KeysAfterReplay(t1, es[1..], key);
      forall e | e in es && !e.action.Other?
        ensures (exists x | x in t1.markets :: x.id == MarketOf(e.action)) <==> exists x | x in t.markets :: x.id == MarketOf(e.action)
      {
        WriteKeepsMarkets(t, es[0], MarketOf(e.action));
        HasMarketIff(t.markets, MarketOf(e.action));
        HasMarketIff(t1.markets, MarketOf(e.action));
      }
      if !es[0].action.Other? {
        HasMarketIff(t.markets, MarketOf(es[0].action));
      }
    }
  }

  /** The rows counted as corrected are exactly those that a recompute changes. */
  lemma CorrectedIff(t: Tables, i: nat)
    requires i < |t.markets|
    ensures i in OffTotals(t) <==> TotalsRecomputed(t).markets[i] != t.markets[i]
    ensures i in OffCounts(t) <==> CountsRecomputed(t).markets[i] != t.markets[i]
  {
  }
}
