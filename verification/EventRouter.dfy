/**
  The schema-validated router of `indexer/src/event-router.ts`. The domain tables are an arbitrary type
  `S`; validation, the handlers, and whether a dead letter can be stored, are arbitrary parameters. The
  bulk bet handler is assumed to be the fold of the single one, all or nothing.
 */
module EventRouter {
  import opened Wrappers

  /** A topic value of any type; only text is ever matched. */
  datatype Topic = Text(text: string) | Undefined | Another(id: int)

  datatype Event = Event(topics: seq<Topic>, data: int, ledger: int, txHash: string)

  datatype Route =
    | MarketCreated | BetPlaced | MarketResolved | MarketCancelled | ReferralRegistered | ReferralReward
    | OracleChallenged | OracleEscalated | OracleFinalized

  function TopicAt(topics: seq<Topic>, i: nat): Topic { if i < |topics| then topics[i] else Undefined }

  predicate Pair(topics: seq<Topic>, domain: string, action: string) {
    TopicAt(topics, 0) == Text(domain) && TopicAt(topics, 1) == Text(action)
  }

  /** The three historical shapes: ["bet_placed", …], ["bet", "placed", …] and ["bet"]. */
  predicate IsBetPlacedTopic(topics: seq<Topic>) {
    || TopicAt(topics, 0) == Text("bet_placed")
    || Pair(topics, "bet", "placed")
    || (TopicAt(topics, 0) == Text("bet") && TopicAt(topics, 1) == Undefined)
  }

  /** `ROUTES.find`: the first route in the table whose matcher accepts. */
  function FindRoute(topics: seq<Topic>): Option<Route> {
    if Pair(topics, "mkt", "created") then Some(MarketCreated)
    else if IsBetPlacedTopic(topics) then Some(BetPlaced)
    else if TopicAt(topics, 0) == Text("market_resolved") || Pair(topics, "mkt", "resolved") then Some(MarketResolved)
    else if Pair(topics, "mkt", "cancelled") then Some(MarketCancelled)
    else if Pair(topics, "referral", "registered") then Some(ReferralRegistered)
    else if Pair(topics, "referral", "reward") then Some(ReferralReward)
    else if Pair(topics, "oracle", "challenged") then Some(OracleChallenged)
    else if Pair(topics, "oracle", "escalated") then Some(OracleEscalated)
    else if Pair(topics, "oracle", "finalized") then Some(OracleFinalized)
    else None
  }

  datatype Handlers<!S> = Handlers(
    valid: (Route, Event) -> bool,
    handle: (Route, S, Event) -> Result<S, string>,
    storable: Event -> bool)

  datatype Reason = Unrecognized | Invalid(route: Route)

  /** The tables a transaction covers, and the process-wide counters it does not. */
  datatype Tables<S> = Tables(domain: S, deadLetters: seq<(Event, Reason)>)

  datatype Metrics = Metrics(processed: nat, byType: map<Route, nat>, deadLettered: nat)

  datatype State<S> = State(tables: Tables<S>, metrics: Metrics)

  function Bump(m: map<Route, nat>, r: Route, n: nat): map<Route, nat> { m[r := (if r in m then m[r] else 0) + n] }

  function CountProcessed(m: Metrics, r: Route, n: nat): Metrics {
    m.(processed := m.processed + n, byType := Bump(m.byType, r, n))
  }

  /** `deadLetterEvent`: counted always, stored if the insert works; a failing insert is swallowed. */
  function DeadLetter<S>(h: Handlers<S>, s: State<S>, e: Event, reason: Reason): State<S> {
    State(if h.storable(e) then s.tables.(deadLetters := s.tables.deadLetters + [(e, reason)]) else s.tables,
          s.metrics.(deadLettered := s.metrics.deadLettered + 1))
  }

  /** `writeEventToDb`. */
  function Write<S>(h: Handlers<S>, s: State<S>, e: Event): (State<S>, Option<string>) {
    var route := FindRoute(e.topics);
    if route == None then (DeadLetter(h, s, e, Unrecognized), None)
    else if !h.valid(route.value, e) then (DeadLetter(h, s, e, Invalid(route.value)), None)
    else
      match h.handle(route.value, s.tables.domain, e)
      case Err(error) => (s, Some(error))
      case Ok(domain) => (State(s.tables.(domain := domain), CountProcessed(s.metrics, route.value, 1)), None)
  }

  /** One call of `writeEventToDb` per event, in order, up to the first one that throws. */
  function WriteEach<S>(h: Handlers<S>, s: State<S>, es: seq<Event>): (State<S>, Option<string>)
    decreases |es|
  {
    if es == [] then (s, None)
    else
      var (s1, error) := Write(h, s, es[0]);
      if error != None then (s1, error) else WriteEach(h, s1, es[1..])
  }

  /** The bulk bet handler: the fold of the single one, or no effect at all. */
  function HandleBets<S>(h: Handlers<S>, domain: S, batch: seq<Event>): Result<S, string> {
    if batch == [] then Ok(domain)
    else
      match h.handle(BetPlaced, domain, batch[0])
      case Err(error) => Err(error)
      case Ok(domain') => HandleBets(h, domain', batch[1..])
  }

  // ----- the batching loop -----

  class Router<S> {
    const h: Handlers<S>
    var state: State<S>

    constructor (h: Handlers<S>, state: State<S>)
      ensures this.h == h && this.state == state
    {
      this.h, this.state := h, state;
    }

    method WriteEventToDb(e: Event) returns (error: Option<string>)
      modifies this
      ensures (state, error) == Write(h, old(state), e)
    {
      var route := FindRoute(e.topics);
      if route.None? {
        DeadLetterEvent(e, Unrecognized);
        return None;
      }
      if !h.valid(route.value, e) {
        DeadLetterEvent(e, Invalid(route.value));
        return None;
      }
      match h.handle(route.value, state.tables.domain, e) {
        case Err(failure) =>
          return Some(failure);
        case Ok(domain) =>
          state := State(state.tables.(domain := domain), CountProcessed(state.metrics, route.value, 1));
          return None;
      }
    }

    /** `deadLetterEvent`: the counter first, then an insert whose failure is swallowed. */
    method DeadLetterEvent(e: Event, reason: Reason)
      modifies this
      ensures state == DeadLetter(h, old(state), e, reason)
    {
      state := state.(metrics := state.metrics.(deadLettered := state.metrics.deadLettered + 1));
      if h.storable(e) {
        state := state.(tables := state.tables.(deadLetters := state.tables.deadLetters + [(e, reason)]));
      }
    }

    /** `writeEventsToDb`. It performs the groups of `Plan`, in order, up to the first failure. */
    method WriteEventsToDb(events: seq<Event>) returns (error: Option<string>)
      modifies this
      ensures (state, error) == Perform(h, old(state), Plan(h, events))
    {
      error := None;
      var index := 0;
      while index < |events|
        invariant 0 <= index <= |events| && error == None
        invariant Perform(h, old(state), Plan(h, events)) == Perform(h, state, Plan(h, events[index..]))
        decreases |events| - index
      {
        ghost var rest := events[index..];
        assert rest[0] == events[index] && rest[1..] == events[index + 1..];
        if !IsBetPlacedTopic(events[index].topics) {
          PerformSingle(h, state, rest);
          error := WriteEventToDb(events[index]);
          if error != None {
            return;
          }
          index := index + 1;
          continue;
        }

        var batch;
        batch, index := CollectBatch(h, events, index);
        assert rest[..|batch|] == batch && rest[|batch|..] == events[index..];

        if |batch| > 0 {
          PerformBulk(h, state, rest, |batch|);
          match HandleBets(h, state.tables.domain, batch) {
            case Err(failure) =>
              return Some(failure);
            case Ok(domain) =>
              state := State(state.tables.(domain := domain), CountProcessed(state.metrics, BetPlaced, |batch|));
          }
          continue;
        }

        PerformSingle(h, state, rest);
        error := WriteEventToDb(events[index]);
        if error != None {
          return;
        }
        index := index + 1;
      }
      assert events[index..] == [];
    }
  }

  /** The inner loop: from `first` on, adjacent valid bets of that event's ledger. */
  method CollectBatch<S>(h: Handlers<S>, events: seq<Event>, first: nat) returns (batch: seq<Event>, index: nat)
    requires first < |events|
    ensures first <= index <= |events| && batch == events[first..index]
    ensures |batch| == BatchLen(h, events[first..], events[first].ledger)
  {
    index := first;
    var ledger := events[first].ledger;
    batch := [];
    while index < |events| && Batchable(h, ledger, events[index])
      invariant first <= index <= |events| && batch == events[first..index]
      invariant forall k :: first <= k < index ==> Batchable(h, ledger, events[k])
    {
      batch := batch + [events[index]];
      index := index + 1;
    }
    BatchLenIs(h, events[first..], ledger, index - first);
  }

  /** The plan starts with a lone event, or with a batch. */
  lemma PerformSingle<S>(h: Handlers<S>, s: State<S>, es: seq<Event>)
    requires es != [] && (!IsBetPlacedTopic(es[0].topics) || BatchLen(h, es, es[0].ledger) == 0)
    ensures Perform(h, s, Plan(h, es))
         == (var (s1, error) := Write(h, s, es[0]); if error != None then (s1, error) else Perform(h, s1, Plan(h, es[1..])))
  {
    assert Plan(h, es)[1..] == Plan(h, es[1..]);
  }

  lemma PerformBulk<S>(h: Handlers<S>, s: State<S>, es: seq<Event>, n: nat)
    requires es != [] && IsBetPlacedTopic(es[0].topics) && n > 0 && BatchLen(h, es, es[0].ledger) == n
    ensures Perform(h, s, Plan(h, es))
         == (var (s1, error) := PerformOne(h, s, Bulk(es[..n])); if error != None then (s1, error) else Perform(h, s1, Plan(h, es[n..])))
  {
    assert Plan(h, es)[0] == Bulk(es[..n]) && Plan(h, es)[1..] == Plan(h, es[n..]);
  }

  /** The condition of the inner loop and its validation `break`. */
  predicate Batchable<S>(h: Handlers<S>, ledger: int, e: Event) {
    e.ledger == ledger && IsBetPlacedTopic(e.topics) && h.valid(BetPlaced, e)
  }

  function BatchLen<S>(h: Handlers<S>, es: seq<Event>, ledger: int): (n: nat)
    ensures n <= |es|
  {
    if es == [] || !Batchable(h, ledger, es[0]) then 0 else 1 + BatchLen(h, es[1..], ledger)
  }

  lemma {:induction false} BatchLenIs<S>(h: Handlers<S>, es: seq<Event>, ledger: int, n: nat)
    requires n <= |es| && (forall k :: 0 <= k < n ==> Batchable(h, ledger, es[k]))
    requires n < |es| ==> !Batchable(h, ledger, es[n])
    ensures BatchLen(h, es, ledger) == n
  {
    if n > 0 {
      BatchLenIs(h, es[1..], ledger, n - 1);
    }
  }

  datatype Group = Single(event: Event) | Bulk(batch: seq<Event>)

  function Plan<S>(h: Handlers<S>, es: seq<Event>): seq<Group>
    decreases |es|
  {
    if es == [] then []
    else
      var n := if IsBetPlacedTopic(es[0].topics) then BatchLen(h, es, es[0].ledger) else 0;
      if n > 0 then [Bulk(es[..n])] + Plan(h, es[n..]) else [Single(es[0])] + Plan(h, es[1..])
  }

  function PerformOne<S>(h: Handlers<S>, s: State<S>, g: Group): (State<S>, Option<string>) {
    match g
    case Single(e) => Write(h, s, e)
    case Bulk(batch) =>
      match HandleBets(h, s.tables.domain, batch)
      case Err(error) => (s, Some(error))
      case Ok(domain) => (State(s.tables.(domain := domain), CountProcessed(s.metrics, BetPlaced, |batch|)), None)
  }

  function Perform<S>(h: Handlers<S>, s: State<S>, gs: seq<Group>): (State<S>, Option<string>)
    decreases |gs|
  {
    if gs == [] then (s, None)
    else
      var (s1, error) := PerformOne(h, s, gs[0]);
      if error != None then (s1, error) else Perform(h, s1, gs[1..])
  }

  // ----- the groups are the input, cut where it has to be -----

  function Flatten(gs: seq<Group>): seq<Event> {
    if gs == [] then [] else EventsOf(gs[0]) + Flatten(gs[1..])
  }

  function EventsOf(g: Group): seq<Event> { match g case Single(e) => [e] case Bulk(b) => b }

  predicate GroupOk<S>(h: Handlers<S>, g: Group) {
    match g
    case Single(e) => !Batchable(h, e.ledger, e)
    case Bulk(b) => b != [] && forall i | 0 <= i < |b| :: Batchable(h, b[0].ledger, b[i])
  }

  /** A batch stops only where the next event cannot join it. */
  predicate Maximal<S>(h: Handlers<S>, gs: seq<Group>) {
    forall i | 0 <= i < |gs| - 1 && gs[i].Bulk? ::
      gs[i].batch != [] && Flatten(gs[i + 1..]) != [] && !Batchable(h, gs[i].batch[0].ledger, Flatten(gs[i + 1..])[0])
  }

  lemma {:induction false} BatchLenProps<S>(h: Handlers<S>, es: seq<Event>, ledger: int)
    ensures var n := BatchLen(h, es, ledger);
            (forall k :: 0 <= k < n ==> Batchable(h, ledger, es[k])) && (n < |es| ==> !Batchable(h, ledger, es[n]))
  {
    if es != [] && Batchable(h, ledger, es[0]) {
      BatchLenProps(h, es[1..], ledger);
    }
  }

  /** Every event is in exactly one group, in order; batches hold valid bets of one ledger, as many as
      possible; everything else goes alone. */
  lemma {:induction false} PlanPartitions<S>(h: Handlers<S>, es: seq<Event>)
    ensures Flatten(Plan(h, es)) == es
    ensures forall g | g in Plan(h, es) :: GroupOk(h, g)
    ensures Maximal(h, Plan(h, es))
    decreases |es|
  {
    if es != [] {
      var n := if IsBetPlacedTopic(es[0].topics) then BatchLen(h, es, es[0].ledger) else 0;
      BatchLenProps(h, es, es[0].ledger);
      var rest := if n > 0 then es[n..] else es[1..];
      PlanPartitions(h, rest);
      var gs := Plan(h, es);
      assert gs[1..] == Plan(h, rest);
      forall i | 0 <= i < |gs| - 1 && gs[i].Bulk?
        ensures gs[i].batch != [] && Flatten(gs[i + 1..]) != [] && !Batchable(h, gs[i].batch[0].ledger, Flatten(gs[i + 1..])[0])
      {
        if i > 0 {
          assert gs[i + 1..] == Plan(h, rest)[i..] && gs[i] == Plan(h, rest)[i - 1];
        } else {
          assert rest != [];
        }
      }
    }
  }

  // ----- refinement -----

  lemma BetsRouteToBets<S>(h: Handlers<S>, ledger: int, e: Event)
    requires Batchable(h, ledger, e)
    ensures FindRoute(e.topics) == Some(BetPlaced)
  {
  }

  lemma BumpTwice(m: map<Route, nat>, r: Route, n: nat, k: nat)
    ensures Bump(Bump(m, r, n), r, k) == Bump(m, r, n + k)
  {
  }

  /** One batch against its events one by one: same error, and without an error the same state. */
  lemma {:induction false} BulkRefinesSingles<S>(h: Handlers<S>, s: State<S>, batch: seq<Event>)
    requires batch != [] && forall e | e in batch :: Batchable(h, e.ledger, e)
    ensures PerformOne(h, s, Bulk(batch)).1 == WriteEach(h, s, batch).1
    ensures PerformOne(h, s, Bulk(batch)).1 == None ==> PerformOne(h, s, Bulk(batch)).0 == WriteEach(h, s, batch).0
    decreases |batch|
  {
    BetsRouteToBets(h, batch[0].ledger, batch[0]);
    if |batch| > 1 {
      var (s1, error) := Write(h, s, batch[0]);
      if error == None {
        BulkRefinesSingles(h, s1, batch[1..]);
        BumpTwice(s.metrics.byType, BetPlaced, 1, |batch| - 1);
      }
    } else {
      assert batch[1..] == [];
      assert forall d: S :: HandleBets(h, d, batch[1..]) == Ok(d);
    }
  }

  lemma {:induction false} WriteEachSplits<S>(h: Handlers<S>, s: State<S>, a: seq<Event>, b: seq<Event>)
    ensures WriteEach(h, s, a + b)
         == (var (s1, error) := WriteEach(h, s, a); if error != None then (s1, error) else WriteEach(h, s1, b))
    decreases |a|
  {
    if a == [] {
      assert a + b == b;
    } else {
      assert (a + b)[0] == a[0] && (a + b)[1..] == a[1..] + b;
      var (s1, error) := Write(h, s, a[0]);
      WriteEachSplits(h, s1, a[1..], b);
    }
  }

  lemma {:induction false} PerformRefines<S>(h: Handlers<S>, s: State<S>, gs: seq<Group>)
    requires forall g | g in gs :: GroupOk(h, g)
    ensures Perform(h, s, gs).1 == WriteEach(h, s, Flatten(gs)).1
    ensures Perform(h, s, gs).1 == None ==> Perform(h, s, gs).0 == WriteEach(h, s, Flatten(gs)).0
    decreases |gs|
  {
    if gs != [] {
      assert gs[0] in gs && (forall g | g in gs[1..] :: g in gs);
      var head := EventsOf(gs[0]);
      var (s1, error) := PerformOne(h, s, gs[0]);
      WriteEachSplits(h, s, head, Flatten(gs[1..]));
      match gs[0] {
        case Single(e) =>
          assert head == [e] && [e][1..] == [];
        case Bulk(b) =>
          assert head == b;
          BulkRefinesSingles(h, s, b);
      }
      if error == None {
        PerformRefines(h, s1, gs[1..]);
      }
    }
  }

  /** `writeEventsToDb` fails exactly when, and with the error with which, writing the events one by one
      fails; and if it does not fail, tables and counters end up the same. */
  lemma BatchingRefinesOneByOne<S>(h: Handlers<S>, s: State<S>, es: seq<Event>)
    ensures Perform(h, s, Plan(h, es)).1 == WriteEach(h, s, es).1
    ensures Perform(h, s, Plan(h, es)).1 == None ==> Perform(h, s, Plan(h, es)).0 == WriteEach(h, s, es).0
  {
    PlanPartitions(h, es);
    PerformRefines(h, s, Plan(h, es));
  }

  /** Where a failing batched write leaves the state, outside a transaction: exactly the groups before the
      failing one are written, each as if one by one, and nothing of the failing one. */
  lemma {:induction false} FailureKeepsWholeGroups<S>(h: Handlers<S>, s: State<S>, gs: seq<Group>) returns (k: nat)
    requires (forall g | g in gs :: GroupOk(h, g)) && Perform(h, s, gs).1 != None
    ensures k < |gs| && WriteEach(h, s, Flatten(gs[..k])).1 == None
    ensures Perform(h, s, gs).0 == WriteEach(h, s, Flatten(gs[..k])).0
    ensures PerformOne(h, Perform(h, s, gs).0, gs[k]) == Perform(h, s, gs)
    decreases |gs|
  {
    var (s1, error) := PerformOne(h, s, gs[0]);
    if error != None {
      k := 0;
      assert Flatten(gs[..0]) == [];
    } else {
      assert gs[0] in gs && (forall g | g in gs[1..] :: g in gs);
      var n := FailureKeepsWholeGroups(h, s1, gs[1..]);
      k := n + 1;
      OneGroupRefines(h, s, gs[0]);
      assert gs[..k][0] == gs[0] && gs[..k][1..] == gs[1..][..n];
      WriteEachSplits(h, s, EventsOf(gs[0]), Flatten(gs[1..][..n]));
    }
  }

  lemma OneGroupRefines<S>(h: Handlers<S>, s: State<S>, g: Group)
    requires GroupOk(h, g) && PerformOne(h, s, g).1 == None
    ensures WriteEach(h, s, EventsOf(g)) == PerformOne(h, s, g)
  {
    assert Flatten([g]) == EventsOf(g) + [] == EventsOf(g) by {
      assert [g][1..] == [];
    }
    PerformRefines(h, s, [g]);
    assert Perform(h, s, [g]) == PerformOne(h, s, g) by {
      assert [g][1..] == [];
    }
  }

  /** How many events writing one by one gets through before the first that throws. */
  function WrittenCount<S>(h: Handlers<S>, s: State<S>, es: seq<Event>): (n: nat)
    ensures n <= |es|
    decreases |es|
  {
    if es == [] then 0
    else
      var (s1, error) := Write(h, s, es[0]);
      if error != None then 0 else 1 + WrittenCount(h, s1, es[1..])
  }

  lemma {:induction false} WriteEachStops<S>(h: Handlers<S>, s: State<S>, es: seq<Event>)
    ensures var n := WrittenCount(h, s, es);
            && WriteEach(h, s, es[..n]) == (WriteEach(h, s, es).0, None)
            && (n == |es| <==> WriteEach(h, s, es).1 == None)
    decreases |es|
  {
    if es != [] {
      var (s1, error) := Write(h, s, es[0]);
      if error == None {
        WriteEachStops(h, s1, es[1..]);
        var n := WrittenCount(h, s, es);
        assert es[..n][0] == es[0] && es[..n][1..] == es[1..][..n - 1];
      }
    }
  }

  /** What a prefix that goes through leaves to do. */
  lemma WrittenAfter<S>(h: Handlers<S>, s: State<S>, a: seq<Event>, b: seq<Event>)
    requires WriteEach(h, s, a).1 == None
    ensures WrittenCount(h, s, a + b) == |a| + WrittenCount(h, WriteEach(h, s, a).0, b)
    decreases |a|
  {
    if a == [] {
      assert a + b == b;
    } else {
      assert (a + b)[0] == a[0] && (a + b)[1..] == a[1..] + b;
      WrittenAfter(h, Write(h, s, a[0]).0, a[1..], b);
    }
  }

  lemma Assoc<T>(a: seq<T>, b: seq<T>, c: seq<T>)
    ensures a + (b + c) == (a + b) + c
  {
  }

  lemma {:induction false} FlattenSplits(gs: seq<Group>, k: nat)
    requires k <= |gs|
    ensures Flatten(gs) == Flatten(gs[..k]) + Flatten(gs[k..])
  {
    if k > 0 {
      FlattenSplits(gs[1..], k - 1);
      assert gs[..k][0] == gs[0] && gs[..k][1..] == gs[1..][..k - 1] && gs[1..][k - 1..] == gs[k..];
      Assoc(EventsOf(gs[0]), Flatten(gs[1..][..k - 1]), Flatten(gs[k..]));
    } else {
      assert gs[..0] == [] && gs[0..] == gs;
      assert [] + Flatten(gs) == Flatten(gs);
    }
  }

  /** Event number `n` of the flattened groups starts a group. */
  ghost predicate StartsGroup(gs: seq<Group>, n: nat) {
    exists k :: 0 <= k < |gs| && |Flatten(gs[..k])| == n
  }

  lemma GroupStartsGrow(gs: seq<Group>, i: nat, k: nat)
    requires i < k <= |gs| && forall g | g in gs :: EventsOf(g) != []
    ensures |Flatten(gs[..i])| + |EventsOf(gs[i])| <= |Flatten(gs[..k])|
  {
    FlattenSplits(gs[..k], i);
    assert gs[..k][..i] == gs[..i] && gs[..k][i..][0] == gs[i];
  }

  /** Within its own group, the failing event is the one at which writing one by one fails. */
  lemma FailingGroup<S>(h: Handlers<S>, s: State<S>, gs: seq<Group>) returns (k: nat)
    requires (forall g | g in gs :: GroupOk(h, g)) && Perform(h, s, gs).1 != None
    ensures k < |gs|
    ensures var m, n := |Flatten(gs[..k])|, WrittenCount(h, s, Flatten(gs));
            && m <= n < m + |EventsOf(gs[k])|
            && Perform(h, s, gs).0 == WriteEach(h, s, Flatten(gs)[..m]).0 && WriteEach(h, s, Flatten(gs)[..m]).1 == None
  {
    k := FailureKeepsWholeGroups(h, s, gs);
    var before := Flatten(gs[..k]);
    var s1 := Perform(h, s, gs).0;
    var g := gs[k];
    assert g in gs;
    FlattenSplits(gs, k);
    assert gs[k..][0] == g && gs[k..][1..] == gs[k + 1..];
    assert Flatten(gs)[..|before|] == before;
    var after := Flatten(gs[k + 1..]);
    assert Flatten(gs) == before + (EventsOf(g) + after);
    WrittenAfter(h, s, before, EventsOf(g) + after);
    GroupFails(h, s1, g, after);
  }

  lemma GroupFails<S>(h: Handlers<S>, s: State<S>, g: Group, after: seq<Event>)
    requires GroupOk(h, g) && PerformOne(h, s, g).1 != None
    ensures WrittenCount(h, s, EventsOf(g) + after) < |EventsOf(g)|
  {
    var es := EventsOf(g);
    if g.Bulk? {
      BulkRefinesSingles(h, s, g.batch);
    } else {
      assert es[1..] == [];
    }
    WriteEachStops(h, s, es);
    CountStopsEarly(h, s, es, after);
  }

  lemma {:induction false} CountStopsEarly<S>(h: Handlers<S>, s: State<S>, a: seq<Event>, b: seq<Event>)
    requires WrittenCount(h, s, a) < |a|
    ensures WrittenCount(h, s, a + b) == WrittenCount(h, s, a)
    decreases |a|
  {
    assert (a + b)[0] == a[0] && (a + b)[1..] == a[1..] + b;
    var (s1, error) := Write(h, s, a[0]);
    if error == None {
      CountStopsEarly(h, s1, a[1..], b);
    }
  }

  /** Every event written is counted, so a longer prefix leaves other counters. */
  lemma PrefixCounters<S>(h: Handlers<S>, s: State<S>, es: seq<Event>, m: nat, n: nat)
    requires m <= n <= |es| && WriteEach(h, s, es[..n]).1 == None && WriteEach(h, s, es[..m]).1 == None
    ensures WriteEach(h, s, es[..m]).0 == WriteEach(h, s, es[..n]).0 <==> m == n
  {
    EveryEventIsCounted(h, s, es[..m]);
    EveryEventIsCounted(h, s, es[..n]);
  }

  /** Outside a transaction the batched write and writing one by one leave the same state if and only if
      nothing fails, or the event that fails is the first of its group. */
  lemma StatesAgreeIff<S>(h: Handlers<S>, s: State<S>, es: seq<Event>)
    ensures Perform(h, s, Plan(h, es)).0 == WriteEach(h, s, es).0
       <==> WriteEach(h, s, es).1 == None || StartsGroup(Plan(h, es), WrittenCount(h, s, es))
  {
    var gs := Plan(h, es);
    PlanPartitions(h, es);
    BatchingRefinesOneByOne(h, s, es);
    if WriteEach(h, s, es).1 != None {
      var k := FailingGroup(h, s, gs);
      var m, n := |Flatten(gs[..k])|, WrittenCount(h, s, es);
      WriteEachStops(h, s, es);
      PrefixCounters(h, s, es, m, n);
      GroupsNonempty(h, gs);
      if i :| 0 <= i < |gs| && |Flatten(gs[..i])| == n {
        SameGroup(gs, i, k, n);
      }
    }
  }

  lemma GroupsNonempty<S>(h: Handlers<S>, gs: seq<Group>)
    requires forall g | g in gs :: GroupOk(h, g)
    ensures forall g | g in gs :: EventsOf(g) != []
  {
  }

  lemma SameGroup(gs: seq<Group>, i: nat, k: nat, n: nat)
    requires i < |gs| && k < |gs| && forall g | g in gs :: EventsOf(g) != []
    requires |Flatten(gs[..i])| == n && |Flatten(gs[..k])| <= n < |Flatten(gs[..k])| + |EventsOf(gs[k])|
    ensures i == k
  {
    if i < k {
      assert gs[i] in gs;
      GroupStartsGrow(gs, i, k);
    } else if k < i {
      GroupStartsGrow(gs, k, i);
    }
  }

  /** Handlers that take one event and refuse the next. */
  function TakesOne(): Handlers<nat> {
    Handlers((r: Route, e: Event) => true, (r: Route, d: nat, e: Event) => if d == 0 then Ok(1) else Err("refused"),
             (e: Event) => true)
  }

  function OneBet(): Event { Event([Text("bet_placed")], 0, 7, "a") }

  /** Two bets of one ledger, the second of which the handler refuses: batched, neither is written; one by
      one, the first is. */
  lemma BatchingCanWriteLess()
    ensures var h, s, es := TakesOne(), State(Tables(0, []), Metrics(0, map[], 0)), [OneBet(), OneBet()];
            Perform(h, s, Plan(h, es)).0.tables.domain == 0 && WriteEach(h, s, es).0.tables.domain == 1
  {
    var h, s, e := TakesOne(), State(Tables(0, []), Metrics(0, map[], 0)), OneBet();
    var es := [e, e];
    assert Batchable(h, 7, e) && FindRoute(e.topics) == Some(BetPlaced);
    BatchLenIs(h, es, 7, 2);
    assert es[..2] == es && Plan(h, es)[0] == Bulk(es);
    assert es[1..] == [e] && [e][1..] == [];
    assert HandleBets(h, 1, [e]) == Err("refused");
    assert HandleBets(h, 0, es) == Err("refused");
    var s1 := Write(h, s, e).0;
    assert WriteEach(h, s1, [e]) == (s1, Some("refused"));
  }

  /** The event ends in the dead-letter queue, if it is reached. */
  predicate IsDeadLettered<S>(h: Handlers<S>, e: Event) {
    var route := FindRoute(e.topics);
    route.None? || !h.valid(route.value, e)
  }

  /** The tables after an enclosing PostgreSQL transaction over `es`. An error rolls it back. So does a
      dead-letter insert that fails, although its error is swallowed: the transaction is aborted, and its
      COMMIT is a ROLLBACK. */
  function InTransaction<S>(h: Handlers<S>, before: State<S>, es: seq<Event>, r: (State<S>, Option<string>)): Tables<S> {
    if r.1 == None && forall e | e in es && IsDeadLettered(h, e) :: h.storable(e) then r.0.tables else before.tables
  }

  /** Inside a transaction the two leave the same tables in every case: all of the events' effects or none. */
  lemma SameTablesInTransaction<S>(h: Handlers<S>, s: State<S>, es: seq<Event>)
    ensures InTransaction(h, s, es, Perform(h, s, Plan(h, es))) == InTransaction(h, s, es, WriteEach(h, s, es))
  {
    BatchingRefinesOneByOne(h, s, es);
  }

  /** Without a handler error, every event is counted once: as processed or as dead-lettered. */
  lemma {:induction false} EveryEventIsCounted<S>(h: Handlers<S>, s: State<S>, es: seq<Event>)
    requires WriteEach(h, s, es).1 == None
    ensures var m, m' := s.metrics, WriteEach(h, s, es).0.metrics;
            m'.processed + m'.deadLettered == m.processed + m.deadLettered + |es|
    ensures var d, d' := s.tables.deadLetters, WriteEach(h, s, es).0.tables.deadLetters;
            |d'| - |d| <= WriteEach(h, s, es).0.metrics.deadLettered - s.metrics.deadLettered
    ensures (forall e | e in es :: h.storable(e)) ==>
            |WriteEach(h, s, es).0.tables.deadLetters| - |s.tables.deadLetters|
            == WriteEach(h, s, es).0.metrics.deadLettered - s.metrics.deadLettered
    decreases |es|
  {
    if es != [] {
      assert es[0] in es && (forall e | e in es[1..] :: e in es);
      EveryEventIsCounted(h, Write(h, s, es[0]).0, es[1..]);
    }
  }

  // ----- routes -----

  /** The topics of each route. */
  predicate Matches(topics: seq<Topic>, route: Route) {
    match route
    case MarketCreated => Pair(topics, "mkt", "created")
    case BetPlaced =>
      || TopicAt(topics, 0) == Text("bet_placed") || Pair(topics, "bet", "placed")
      || (TopicAt(topics, 0) == Text("bet") && TopicAt(topics, 1) == Undefined)
    case MarketResolved => TopicAt(topics, 0) == Text("market_resolved") || Pair(topics, "mkt", "resolved")
    case MarketCancelled => Pair(topics, "mkt", "cancelled")
    case ReferralRegistered => Pair(topics, "referral", "registered")
    case ReferralReward => Pair(topics, "referral", "reward")
    case OracleChallenged => Pair(topics, "oracle", "challenged")
    case OracleEscalated => Pair(topics, "oracle", "escalated")
    case OracleFinalized => Pair(topics, "oracle", "finalized")
  }

  lemma DomainsDiffer()
    ensures "mkt" != "bet" && "mkt" != "referral" && "mkt" != "oracle" && "bet" != "referral" && "bet" != "oracle"
    ensures "referral" != "oracle" && "bet_placed" != "bet" && "bet_placed" != "mkt" && "bet_placed" != "market_resolved"
    ensures "market_resolved" != "mkt" && "market_resolved" != "bet" && "market_resolved" != "referral"
    ensures "market_resolved" != "oracle" && "bet_placed" != "referral" && "bet_placed" != "oracle"
  {
    assert "mkt"[0] == 'm' && "bet"[0] == 'b' && "referral"[0] == 'r' && "oracle"[0] == 'o';
    assert "bet_placed"[0] == 'b' && |"bet_placed"| == 10 && "market_resolved"[1] == 'a' && "mkt"[1] == 'k';
    assert "market_resolved"[0] == 'm';
  }

  lemma ActionsDiffer()
    ensures "created" != "resolved" && "created" != "cancelled" && "resolved" != "cancelled"
    ensures "registered" != "reward" && "challenged" != "escalated" && "challenged" != "finalized" && "escalated" != "finalized"
  {
    assert "created"[0] == 'c' && "resolved"[0] == 'r' && "cancelled"[1] == 'a' && "created"[1] == 'r' && "cancelled"[0] == 'c';
    assert "registered"[2] == 'g' && "reward"[2] == 'w';
    assert "challenged"[0] == 'c' && "escalated"[0] == 'e' && "finalized"[0] == 'f';
  }

  /** No two routes accept the same topics, so their order in the table does not matter. */
  lemma RoutesAreDisjoint(topics: seq<Topic>, r: Route, q: Route)
    requires Matches(topics, r) && Matches(topics, q)
    ensures r == q
  {
    DomainsDiffer();
    ActionsDiffer();
  }

  /** An event goes to a route if and only if its topics are the route's. */
  lemma FindRouteIff(topics: seq<Topic>, route: Route)
    ensures FindRoute(topics) == Some(route) <==> Matches(topics, route)
  {
    if Matches(topics, route) && FindRoute(topics).Some? {
      RoutesAreDisjoint(topics, route, FindRoute(topics).value);
    }
  }

  // ----- counters by type -----

  function TypeCount(m: Metrics, r: Route): nat { if r in m.byType then m.byType[r] else 0 }

  /** The events that a handler gets under the route. */
  function HandledAs<S>(h: Handlers<S>, es: seq<Event>, r: Route): nat {
    if es == [] then 0 else (if Matches(es[0].topics, r) && h.valid(r, es[0]) then 1 else 0) + HandledAs(h, es[1..], r)
  }

  /** Without a handler error each route's counter grows by the number of valid events with its topics. */
  lemma {:induction false} TypesAreCounted<S>(h: Handlers<S>, s: State<S>, es: seq<Event>, r: Route)
    requires WriteEach(h, s, es).1 == None
    ensures TypeCount(WriteEach(h, s, es).0.metrics, r) == TypeCount(s.metrics, r) + HandledAs(h, es, r)
    decreases |es|
  {
    if es != [] {
      FindRouteIff(es[0].topics, r);
      TypesAreCounted(h, Write(h, s, es[0]).0, es[1..], r);
    }
  }
}
