/**
  `getOrSet` and `withSingleFlight` of `backend/src/cache/cacheAside.ts`, as a transition system over
  any number of concurrent calls. Each await is a point where other calls run. The circuit breaker and
  Redis are adversarial: any call may skip Redis, any command may fail, any key may expire, be
  overwritten with text that does not parse, or be written by another instance.
 */
module CacheAside {
  import opened Sequences
  import opened Wrappers

  type Id = nat
  type Key = string

  /** What a loader produces: `undefined` is not serialisable, `null` is a "not found". */
  datatype Value = Undefined | Null | Data(json: string)

  /** What a call or a run settles with. */
  datatype Outcome = Returned(value: Value) | Threw(error: string)

  /** What Redis stores under a key: a serialised value, or text that does not parse. */
  datatype Stored = Json(value: Value) | Corrupt

  /** One `getOrSet` call. `consulted` is `consultedRedis`. */
  datatype Phase =
    | Getting                                   // redis.get is outstanding
    | Fallback(consulted: bool)                 // about to enter withSingleFlight
    | Waiting(run: Id, consulted: bool)         // holds the promise of a run
    | Served(outcome: Outcome)                  // answered from Redis
    | Loaded(run: Id, consulted: bool, outcome: Outcome)

  datatype Call = Call(key: Key, phase: Phase)

  /** One execution of the load-and-store function. */
  datatype Progress =
    | Loading
    | Storing(value: Value)       // SETEX is outstanding
    | Finishing(outcome: Outcome) // the function settled; its `finally` has not run
    | Done(outcome: Outcome)      // the shared promise settled

  datatype Run = Run(key: Key, progress: Progress)

  datatype Counters = Counters(hits: nat, misses: nat, negativeHits: nat, negativeMisses: nat) {
    function Total(): nat { hits + misses + negativeHits + negativeMisses }
  }

  /** `produced` is bookkeeping of the model: every value that some loader has produced, or another
      instance has stored, per key. */
  datatype State = State(
    calls: map<Id, Call>, runs: map<Id, Run>, inFlight: map<Key, Id>,
    redis: map<Key, Stored>, counters: Counters, produced: set<(Key, Value)>)

  datatype Step =
    | Begin(c: Id, key: Key, attempt: bool)
    | RedisAnswers(c: Id)
    | RedisFails(c: Id)
    | EnterFlight(c: Id, r: Id)
    | LoaderSettles(r: Id, outcome: Outcome)
    | StoreAnswers(r: Id, applied: bool)
    | FinallyRuns(r: Id)
    | CallResumes(c: Id)
    | Expires(key: Key)
    | Corrupts(key: Key)
    | OtherStores(key: Key, value: Value)

  predicate Enabled(st: State, step: Step) {
    match step
    case Begin(c, _, _) => c !in st.calls
    case RedisAnswers(c) => c in st.calls && st.calls[c].phase.Getting?
    case RedisFails(c) => c in st.calls && st.calls[c].phase.Getting?
    case EnterFlight(c, r) => c in st.calls && st.calls[c].phase.Fallback? && r !in st.runs
    case LoaderSettles(r, _) => r in st.runs && st.runs[r].progress.Loading?
    case StoreAnswers(r, _) => r in st.runs && st.runs[r].progress.Storing?
    case FinallyRuns(r) => r in st.runs && st.runs[r].progress.Finishing?
    case CallResumes(c) =>
      c in st.calls && st.calls[c].phase.Waiting? && st.calls[c].phase.run in st.runs
      && st.runs[st.calls[c].phase.run].progress.Done?
    case Expires(_) => true
    case Corrupts(_) => true
    case OtherStores(_, v) => !v.Undefined?
  }

  function SetCall(st: State, c: Id, phase: Phase): State
    requires c in st.calls
  {
    st.(calls := st.calls[c := st.calls[c].(phase := phase)])
  }

  function SetRun(st: State, r: Id, progress: Progress): State
    requires r in st.runs
  {
    st.(runs := st.runs[r := st.runs[r].(progress := progress)])
  }

  /** The counter of a read that Redis itself answered. */
  function CountServed(k: Counters, v: Value): Counters {
    if v.Null? then k.(negativeHits := k.negativeHits + 1) else k.(hits := k.hits + 1)
  }

  /** The counter of a read that consulted Redis and needed the loader. */
  function CountLoaded(k: Counters, outcome: Outcome): Counters {
    if outcome == Returned(Null) then k.(negativeMisses := k.negativeMisses + 1) else k.(misses := k.misses + 1)
  }

  function Next(st: State, step: Step): State
    requires Enabled(st, step)
  {
    match step
    case Begin(c, key, attempt) =>
      st.(calls := st.calls[c := Call(key, if attempt then Getting else Fallback(false))])
    case RedisAnswers(c) =>
      var key := st.calls[c].key;
      if key in st.redis && st.redis[key].Json? then
        var v := st.redis[key].value;
        SetCall(st, c, Served(Returned(v))).(counters := CountServed(st.counters, v))
      else SetCall(st, c, Fallback(true))
    case RedisFails(c) => SetCall(st, c, Fallback(false))
    case EnterFlight(c, r) =>
      var key, consulted := st.calls[c].key, st.calls[c].phase.consulted;
      if key in st.inFlight then SetCall(st, c, Waiting(st.inFlight[key], consulted))
      else
        SetCall(st, c, Waiting(r, consulted)).(runs := st.runs[r := Run(key, Loading)], inFlight := st.inFlight[key := r])
    case LoaderSettles(r, outcome) =>
      var key := st.runs[r].key;
      if outcome.Threw? then SetRun(st, r, Finishing(outcome))
      else
        var st' := st.(produced := st.produced + {(key, outcome.value)});
        SetRun(st', r, if outcome.value.Undefined? then Finishing(outcome) else Storing(outcome.value))
    case StoreAnswers(r, applied) =>
      var run := st.runs[r];
      var v := run.progress.value;
      var st' := if applied then st.(redis := st.redis[run.key := Json(v)]) else st;
      SetRun(st', r, Finishing(Returned(v)))
    case FinallyRuns(r) =>
      var run := st.runs[r];
      SetRun(st.(inFlight := st.inFlight - {run.key}), r, Done(run.progress.outcome))
    case CallResumes(c) =>
      var p := st.calls[c].phase;
      var outcome := st.runs[p.run].progress.outcome;
      var st' := SetCall(st, c, Loaded(p.run, p.consulted, outcome));
      if p.consulted then st'.(counters := CountLoaded(st.counters, outcome)) else st'
    case Expires(key) => st.(redis := st.redis - {key})
    case Corrupts(key) => st.(redis := st.redis[key := Corrupt])
    case OtherStores(key, v) => st.(redis := st.redis[key := Json(v)], produced := st.produced + {(key, v)})
  }

  // ----- runs of the system -----

  function Initial(): State { State(map[], map[], map[], map[], Counters(0, 0, 0, 0), {}) }

  predicate IsTrace(steps: seq<Step>)
    decreases |steps|, 0
  {
    steps == [] || (IsTrace(Front(steps)) && Enabled(Final(Front(steps)), Last(steps)))
  }

  function Final(steps: seq<Step>): State
    requires IsTrace(steps)
    decreases |steps|, 1
  {
    if steps == [] then Initial() else Next(Final(Front(steps)), Last(steps))
  }

  // ----- the inductive invariant -----

  predicate Unsettled(st: State, r: Id) { r in st.runs && !st.runs[r].progress.Done? }

  /** `inFlight` is exactly the table of unsettled runs: one entry per run, one run per key. */
  ghost predicate FlightExact(st: State) {
    && (forall k | k in st.inFlight :: Unsettled(st, st.inFlight[k]) && st.runs[st.inFlight[k]].key == k)
    && (forall r | Unsettled(st, r) :: st.runs[r].key in st.inFlight && st.inFlight[st.runs[r].key] == r)
  }

  /** Values in Redis, in runs and in settled calls were all produced for that key. */
  predicate OutcomeSound(st: State, key: Key, o: Outcome) { o.Returned? ==> (key, o.value) in st.produced }

  predicate RunSound(st: State, run: Run) {
    match run.progress
    case Loading => true
    case Storing(v) => (run.key, v) in st.produced
    case Finishing(o) => OutcomeSound(st, run.key, o)
    case Done(o) => OutcomeSound(st, run.key, o)
  }

  /** A call waits for, or has the outcome of, a run for its own key. */
  predicate CallSound(st: State, call: Call) {
    match call.phase
    case Waiting(r, _) => r in st.runs && st.runs[r].key == call.key
    case Served(o) => OutcomeSound(st, call.key, o)
    case Loaded(r, _, o) =>
      r in st.runs && st.runs[r].key == call.key && st.runs[r].progress == Done(o) && OutcomeSound(st, call.key, o)
    case _ => true
  }

  predicate RedisSound(st: State) {
    forall k | k in st.redis && st.redis[k].Json? :: (k, st.redis[k].value) in st.produced
  }

  predicate RunsSound(st: State) { forall r | r in st.runs :: RunSound(st, st.runs[r]) }

  predicate CallsSound(st: State) { forall c | c in st.calls :: CallSound(st, st.calls[c]) }

  predicate ValuesSound(st: State) { RedisSound(st) && RunsSound(st) && CallsSound(st) }

  /** The four metric families. */
  datatype Family = Hit | Miss | NegativeHit | NegativeMiss

  /** The family a settled call belongs to; none unless it got an answer out of Redis. */
  function FamilyOf(p: Phase): Option<Family> {
    match p
    case Served(o) => Some(if o == Returned(Null) then NegativeHit else Hit)
    case Loaded(_, consulted, o) =>
      if !consulted then None else Some(if o == Returned(Null) then NegativeMiss else Miss)
    case _ => None
  }

  function Members(st: State, f: Family): set<Id> { set c | c in st.calls && FamilyOf(st.calls[c].phase) == Some(f) }

  function Counter(k: Counters, f: Family): nat {
    match f
    case Hit => k.hits
    case Miss => k.misses
    case NegativeHit => k.negativeHits
    case NegativeMiss => k.negativeMisses
  }

  ghost predicate CountersExact(st: State) { forall f: Family :: Counter(st.counters, f) == |Members(st, f)| }

  ghost predicate Inv(st: State) { FlightExact(st) && ValuesSound(st) && CountersExact(st) }

  lemma ProgressKeepsFlight(st: State, st': State, r: Id, p: Progress)
    requires FlightExact(st) && Unsettled(st, r)
    requires st'.runs == st.runs[r := st.runs[r].(progress := p)]
    requires st'.inFlight == if p.Done? then st.inFlight - {st.runs[r].key} else st.inFlight
    ensures FlightExact(st')
  {
    forall q | Unsettled(st', q) ensures st'.runs[q].key in st'.inFlight && st'.inFlight[st'.runs[q].key] == q {
      assert Unsettled(st, q);
    }
    forall k | k in st'.inFlight ensures Unsettled(st', st'.inFlight[k]) && st'.runs[st'.inFlight[k]].key == k {
      assert Unsettled(st, st.inFlight[k]);
    }
  }

  lemma StartKeepsFlight(st: State, st': State, r: Id, key: Key)
    requires FlightExact(st) && r !in st.runs && key !in st.inFlight
    requires st'.runs == st.runs[r := Run(key, Loading)] && st'.inFlight == st.inFlight[key := r]
    ensures FlightExact(st')
  {
    forall q | Unsettled(st', q) ensures st'.runs[q].key in st'.inFlight && st'.inFlight[st'.runs[q].key] == q {
      if q != r {
        assert Unsettled(st, q);
      }
    }
  }

  lemma StepKeepsFlight(st: State, step: Step)
    requires FlightExact(st) && Enabled(st, step)
    ensures FlightExact(Next(st, step))
  {
    var st' := Next(st, step);
    if step.LoaderSettles? || step.StoreAnswers? || step.FinallyRuns? {
      ProgressKeepsFlight(st, st', step.r, st'.runs[step.r].progress);
    } else if step.EnterFlight? && st.calls[step.c].key !in st.inFlight {
      StartKeepsFlight(st, st', step.r, st.calls[step.c].key);
    } else {
      assert st'.runs == st.runs && st'.inFlight == st.inFlight;
      assert forall r :: Unsettled(st', r) <==> Unsettled(st, r);
    }
  }

  lemma StepKeepsRedis(st: State, step: Step)
    requires RedisSound(st) && RunsSound(st) && Enabled(st, step)
    ensures RedisSound(Next(st, step))
  {
  }

  lemma StepKeepsRuns(st: State, step: Step)
    requires RunsSound(st) && Enabled(st, step)
    ensures RunsSound(Next(st, step))
  {
    var st' := Next(st, step);
    forall r | r in st'.runs ensures RunSound(st', st'.runs[r]) {
      if r in st.runs {
        assert RunSound(st, st.runs[r]);
      }
    }
  }

  /** A step never takes back a value or a settled run. */
  lemma StepKeepsCalls(st: State, step: Step)
    requires FlightExact(st) && ValuesSound(st) && Enabled(st, step)
    ensures CallsSound(Next(st, step))
  {
    var st' := Next(st, step);
    forall c | c in st'.calls ensures CallSound(st', st'.calls[c]) {
      if c in st.calls {
        assert CallSound(st, st.calls[c]);
      }
    }
  }

  lemma StepKeepsValues(st: State, step: Step)
    requires FlightExact(st) && ValuesSound(st) && Enabled(st, step)
    ensures ValuesSound(Next(st, step))
  {
    StepKeepsRedis(st, step);
    StepKeepsRuns(st, step);
    StepKeepsCalls(st, step);
  }

  /** Moving one call on moves it into or out of a family. */
  lemma MembersAfter(st: State, st': State, c: Id, x: Call, f: Family)
    requires st'.calls == st.calls[c := x] && c !in Members(st, f)
    ensures Members(st', f) == if FamilyOf(x.phase) == Some(f) then Members(st, f) + {c} else Members(st, f)
  {
  }

  lemma MembersSame(st: State, st': State, f: Family)
    requires st'.calls == st.calls
    ensures Members(st', f) == Members(st, f)
  {
  }

  predicate MovesACall(step: Step) {
    step.Begin? || step.RedisAnswers? || step.RedisFails? || step.EnterFlight? || step.CallResumes?
  }

  lemma CallStep(st: State, step: Step) returns (x: Call)
    requires Enabled(st, step) && MovesACall(step)
    ensures Next(st, step).calls == st.calls[step.c := x]
    ensures step.c in st.calls ==> FamilyOf(st.calls[step.c].phase) == None
    ensures forall f: Family :: Counter(Next(st, step).counters, f)
                             == Counter(st.counters, f) + if FamilyOf(x.phase) == Some(f) then 1 else 0
  {
    x := Next(st, step).calls[step.c];
  }

  lemma OtherStep(st: State, step: Step)
    requires Enabled(st, step) && !MovesACall(step)
    ensures Next(st, step).calls == st.calls && Next(st, step).counters == st.counters
  {
  }

  /** Each step moves at most one call into a family, and then bumps exactly that family's counter. */
  lemma StepKeepsFamily(st: State, step: Step, f: Family)
    requires Counter(st.counters, f) == |Members(st, f)| && Enabled(st, step)
    ensures Counter(Next(st, step).counters, f) == |Members(Next(st, step), f)|
  {
    if MovesACall(step) {
      var x := CallStep(st, step);
      MembersAfter(st, Next(st, step), step.c, x, f);
    } else {
      OtherStep(st, step);
      MembersSame(st, Next(st, step), f);
    }
  }

  lemma StepKeepsInv(st: State, step: Step)
    requires Inv(st) && Enabled(st, step)
    ensures Inv(Next(st, step))
  {
    StepKeepsFlight(st, step);
    StepKeepsValues(st, step);
    forall f: Family ensures Counter(Next(st, step).counters, f) == |Members(Next(st, step), f)| {
      StepKeepsFamily(st, step, f);
    }
  }

  lemma {:induction false} TraceKeepsInv(steps: seq<Step>)
    requires IsTrace(steps)
    ensures Inv(Final(steps))
  {
    if steps == [] {
      assert forall f: Family :: Members(Initial(), f) == {};
    } else {
      TraceKeepsInv(Front(steps));
      StepKeepsInv(Final(Front(steps)), Last(steps));
    }
  }

  // ----- what every interleaving guarantees -----

  /** At most one load-and-store runs per key, and `inFlight` names it from its start until it settles. */
  lemma SingleFlight(steps: seq<Step>, key: Key)
    requires IsTrace(steps)
    ensures var st := Final(steps);
            && (forall r, q | Unsettled(st, r) && Unsettled(st, q) && st.runs[r].key == key && st.runs[q].key == key :: r == q)
            && (key in st.inFlight <==> exists r :: Unsettled(st, r) && st.runs[r].key == key)
            && (key in st.inFlight ==> Unsettled(st, st.inFlight[key]) && st.runs[st.inFlight[key]].key == key)
  {
    TraceKeepsInv(steps);
  }

  /** Calls that coalesced onto one run settle alike, with that run's own outcome and key. */
  lemma CoalescedCallsAgree(steps: seq<Step>, c: Id, d: Id)
    requires IsTrace(steps) && c in Final(steps).calls && d in Final(steps).calls
    requires Final(steps).calls[c].phase.Loaded? && Final(steps).calls[d].phase.Loaded?
    requires Final(steps).calls[c].phase.run == Final(steps).calls[d].phase.run
    ensures var st := Final(steps);
            && st.calls[c].phase.outcome == st.calls[d].phase.outcome
            && st.calls[c].key == st.calls[d].key && st.calls[c].phase.run in st.runs
            && st.runs[st.calls[c].phase.run] == Run(st.calls[c].key, Done(st.calls[c].phase.outcome))
  {
    TraceKeepsInv(steps);
    assert CallSound(Final(steps), Final(steps).calls[c]) && CallSound(Final(steps), Final(steps).calls[d]);
  }

  /** Whatever a call returns, an earlier step produced it for that very key: a loader did, or another
      instance stored it. */
  lemma ReturnedValuesWereProduced(steps: seq<Step>, c: Id)
    requires IsTrace(steps) && c in Final(steps).calls
    requires Final(steps).calls[c].phase.Served? || Final(steps).calls[c].phase.Loaded?
    requires Final(steps).calls[c].phase.outcome.Returned?
    ensures (Final(steps).calls[c].key, Final(steps).calls[c].phase.outcome.value) in Final(steps).produced
    ensures exists i :: 0 <= i < |steps| && Produces(steps, i, Final(steps).calls[c].key, Final(steps).calls[c].phase.outcome.value)
  {
    TraceKeepsInv(steps);
    assert CallSound(Final(steps), Final(steps).calls[c]);
    ProducedByAStep(steps, Final(steps).calls[c].key, Final(steps).calls[c].phase.outcome.value);
  }

  /** The `i`-th step is a loader for `key` settling with `v`, or another instance storing it there. */
  predicate Produces(steps: seq<Step>, i: nat, key: Key, v: Value)
    requires IsTrace(steps) && i < |steps|
  {
    PrefixIsTrace(steps, i);
    var st := Final(steps[..i]);
    || steps[i] == OtherStores(key, v)
    || (steps[i].LoaderSettles? && steps[i].outcome == Returned(v)
        && steps[i].r in st.runs && st.runs[steps[i].r].key == key)
  }

  lemma {:induction false} PrefixIsTrace(steps: seq<Step>, i: nat)
    requires IsTrace(steps) && i <= |steps|
    ensures IsTrace(steps[..i])
  {
    if i == |steps| {
      assert steps[..i] == steps;
    } else {
      PrefixIsTrace(Front(steps), i);
      assert Front(steps)[..i] == steps[..i];
    }
  }

  lemma NewValueIsProduced(st: State, step: Step, key: Key, v: Value)
    requires Enabled(st, step) && (key, v) !in st.produced && (key, v) in Next(st, step).produced
    ensures step == OtherStores(key, v)
         || (step.LoaderSettles? && step.outcome == Returned(v) && st.runs[step.r].key == key)
  {
  }

  lemma {:induction false} ProducedByAStep(steps: seq<Step>, key: Key, v: Value)
    requires IsTrace(steps) && (key, v) in Final(steps).produced
    ensures exists i :: 0 <= i < |steps| && Produces(steps, i, key, v)
  {
    var n := |steps| - 1;
    var st := Final(Front(steps));
    if (key, v) in st.produced {
      ProducedByAStep(Front(steps), key, v);
      var i :| 0 <= i < n && Produces(Front(steps), i, key, v);
      assert Front(steps)[..i] == steps[..i];
      assert Produces(steps, i, key, v);
    } else {
      NewValueIsProduced(st, Last(steps), key, v);
      assert steps[..n] == Front(steps);
      assert Produces(steps, n, key, v);
    }
  }

  // ----- what is stored, and what is served -----

  /** The step writes, drops or spoils the key. */
  predicate Touches(st: State, step: Step, key: Key)
    requires Enabled(st, step)
  {
    match step
    case StoreAnswers(r, applied) => applied && st.runs[r].key == key
    case Expires(k) => k == key
    case Corrupts(k) => k == key
    case OtherStores(k, _) => k == key
    case _ => false
  }

  /** No step from the `i`-th on touches the key. */
  predicate UntouchedFrom(steps: seq<Step>, i: nat, key: Key)
    requires IsTrace(steps)
  {
    |steps| <= i || (UntouchedFrom(Front(steps), i, key) && !Touches(Final(Front(steps)), Last(steps), key))
  }

  function RedisAt(st: State, key: Key): Option<Stored> { if key in st.redis then Some(st.redis[key]) else None }

  lemma UntouchedStep(st: State, step: Step, key: Key)
    requires Enabled(st, step) && !Touches(st, step, key)
    ensures RedisAt(Next(st, step), key) == RedisAt(st, key)
  {
  }

  lemma {:induction false} UntouchedKeeps(steps: seq<Step>, i: nat, key: Key)
    requires IsTrace(steps) && i <= |steps| && UntouchedFrom(steps, i, key)
    ensures IsTrace(steps[..i]) && RedisAt(Final(steps), key) == RedisAt(Final(steps[..i]), key)
  {
    PrefixIsTrace(steps, i);
    if i == |steps| {
      assert steps[..i] == steps;
    } else {
      UntouchedKeeps(Front(steps), i, key);
      UntouchedStep(Final(Front(steps)), Last(steps), key);
      assert Front(steps)[..i] == steps[..i];
    }
  }

  predicate StoresAt(st: State, step: Step, key: Key, v: Value) {
    || step == OtherStores(key, v)
    || (step.StoreAnswers? && step.applied && step.r in st.runs && st.runs[step.r] == Run(key, Storing(v)))
  }

  lemma TouchingStep(st: State, step: Step, key: Key, v: Value)
    requires Enabled(st, step) && Touches(st, step, key)
    ensures RedisAt(Next(st, step), key) == Some(Json(v)) <==> StoresAt(st, step, key, v)
  {
  }

  lemma StoresTouch(st: State, step: Step, key: Key, v: Value)
    requires Enabled(st, step) && StoresAt(st, step, key, v)
    ensures Touches(st, step, key)
  {
  }

  /** The `i`-th step is the last to touch the key, and leaves the value `v` there: a run for the key whose
      loader gave `v` has stored it, or another instance has. */
  predicate LastStores(steps: seq<Step>, i: nat, key: Key, v: Value)
    requires IsTrace(steps) && i < |steps|
  {
    PrefixIsTrace(steps, i);
    UntouchedFrom(steps, i + 1, key) && StoresAt(Final(steps[..i]), steps[i], key, v)
  }

  lemma StepOfTrace(steps: seq<Step>, i: nat)
    requires IsTrace(steps) && i < |steps|
    ensures IsTrace(steps[..i]) && IsTrace(steps[..i + 1]) && Enabled(Final(steps[..i]), steps[i])
    ensures Final(steps[..i + 1]) == Next(Final(steps[..i]), steps[i])
  {
    PrefixIsTrace(steps, i);
    PrefixIsTrace(steps, i + 1);
    assert Front(steps[..i + 1]) == steps[..i] && Last(steps[..i + 1]) == steps[i];
  }

  lemma StoredStaysThere(steps: seq<Step>, i: nat, key: Key, v: Value)
    requires IsTrace(steps) && i < |steps| && LastStores(steps, i, key, v)
    ensures RedisAt(Final(steps), key) == Some(Json(v))
  {
    StepOfTrace(steps, i);
    var st := Final(steps[..i]);
    StoresTouch(st, steps[i], key, v);
    TouchingStep(st, steps[i], key, v);
    UntouchedKeeps(steps, i + 1, key);
  }

  lemma {:induction false} ThereWasStored(steps: seq<Step>, key: Key, v: Value) returns (i: nat)
    requires IsTrace(steps) && RedisAt(Final(steps), key) == Some(Json(v))
    ensures i < |steps| && LastStores(steps, i, key, v)
  {
    var n := |steps| - 1;
    var st := Final(Front(steps));
    assert steps[..n] == Front(steps);
    if Touches(st, Last(steps), key) {
      TouchingStep(st, Last(steps), key, v);
      i := n;
    } else {
      UntouchedStep(st, Last(steps), key);
      i := ThereWasStored(Front(steps), key, v);
      assert Front(steps)[..i] == steps[..i];
    }
  }

  lemma StoredIff(steps: seq<Step>, key: Key, v: Value)
    requires IsTrace(steps)
    ensures RedisAt(Final(steps), key) == Some(Json(v)) <==> exists i :: 0 <= i < |steps| && LastStores(steps, i, key, v)
  {
    if RedisAt(Final(steps), key) == Some(Json(v)) {
      var i := ThereWasStored(steps, key, v);
    }
    if i :| 0 <= i < |steps| && LastStores(steps, i, key, v) {
      StoredStaysThere(steps, i, key, v);
    }
  }

  lemma AnswerStep(st: State, c: Id, v: Value)
    requires Enabled(st, RedisAnswers(c))
    ensures var st' := Next(st, RedisAnswers(c));
            && (st'.calls[c].phase == Served(Returned(v)) <==> RedisAt(st, st.calls[c].key) == Some(Json(v)))
            && (st'.calls[c].phase.Served? || st'.calls[c].phase == Fallback(true))
            && st'.runs == st.runs && st'.inFlight == st.inFlight && st'.redis == st.redis
  {
  }

  /** A read that Redis answers is a hit, with the value `v` and without any run, if and only if the last
      step that touched the key stored `v` there; otherwise the call goes on to the loader. */
  lemma HitIff(steps: seq<Step>, c: Id, v: Value)
    requires IsTrace(steps) && Enabled(Final(steps), RedisAnswers(c))
    ensures var st := Final(steps); var st' := Next(st, RedisAnswers(c));
            && (st'.calls[c].phase == Served(Returned(v))
                <==> exists i :: 0 <= i < |steps| && LastStores(steps, i, st.calls[c].key, v))
            && (st'.calls[c].phase.Served? || st'.calls[c].phase == Fallback(true))
            && st'.runs == st.runs && st'.inFlight == st.inFlight && st'.redis == st.redis
  {
    StoredIff(steps, Final(steps).calls[c].key, v);
    AnswerStep(Final(steps), c, v);
  }

  predicate Storable(o: Outcome) { o.Returned? && !o.value.Undefined? }

  predicate Offered(steps: seq<Step>, r: Id) { StoreAnswers(r, true) in steps || StoreAnswers(r, false) in steps }

  function ProgressOf(st: State, r: Id): Option<Progress> { if r in st.runs then Some(st.runs[r].progress) else None }

  /** What a run's progress says about the trace so far. */
  predicate RunHistory(steps: seq<Step>, r: Id, p: Option<Progress>) {
    match p
    case None => !Offered(steps, r)
    case Some(Loading) => !Offered(steps, r)
    case Some(Storing(v)) => Storable(Returned(v)) && LoaderSettles(r, Returned(v)) in steps
    case Some(Finishing(o)) => LoaderSettles(r, o) in steps && (Storable(o) <==> Offered(steps, r))
    case Some(Done(o)) => LoaderSettles(r, o) in steps && (Storable(o) <==> Offered(steps, r))
  }

  /** How one step moves one run. */
  predicate Moves(p: Option<Progress>, step: Step, r: Id, q: Option<Progress>) {
    if step.LoaderSettles? && step.r == r then
      && p == Some(Loading)
      && q == Some(if Storable(step.outcome) then Storing(step.outcome.value) else Finishing(step.outcome))
    else if step.StoreAnswers? && step.r == r then
      p.Some? && p.value.Storing? && q == Some(Finishing(Returned(p.value.value)))
    else if step.FinallyRuns? && step.r == r then
      p.Some? && p.value.Finishing? && q == Some(Done(p.value.outcome))
    else q == p || (p == None && q == Some(Loading))
  }

  lemma RunStep(st: State, step: Step, r: Id)
    requires Enabled(st, step)
    ensures Moves(ProgressOf(st, r), step, r, ProgressOf(Next(st, step), r))
  {
  }

  lemma InSnoc<T>(s: seq<T>, x: T)
    requires s != []
    ensures x in s <==> x in Front(s) || x == Last(s)
  {
    assert s == Front(s) + [Last(s)];
  }

  lemma HistoryStep(steps: seq<Step>, r: Id, p: Option<Progress>, q: Option<Progress>)
    requires steps != [] && RunHistory(Front(steps), r, p) && Moves(p, Last(steps), r, q)
    ensures RunHistory(steps, r, q)
  {
    InSnoc(steps, StoreAnswers(r, true));
    InSnoc(steps, StoreAnswers(r, false));
    if q.Some? && q.value.Storing? {
      InSnoc(steps, LoaderSettles(r, Returned(q.value.value)));
    } else if q.Some? && !q.value.Loading? {
      InSnoc(steps, LoaderSettles(r, q.value.outcome));
    }
  }

  lemma {:induction false} RunsHaveHistory(steps: seq<Step>, r: Id)
    requires IsTrace(steps)
    ensures RunHistory(steps, r, ProgressOf(Final(steps), r))
  {
    if steps != [] {
      RunsHaveHistory(Front(steps), r);
      RunStep(Final(Front(steps)), Last(steps), r);
      HistoryStep(steps, r, ProgressOf(Final(Front(steps)), r), ProgressOf(Final(steps), r));
    }
  }

  /** A run settles with what its loader said, and has offered that to Redis if and only if it is a value
      other than `undefined`. */
  lemma RunsOfferWhatTheyLoad(steps: seq<Step>, r: Id, o: Outcome)
    requires IsTrace(steps) && r in Final(steps).runs && Final(steps).runs[r].progress == Done(o)
    ensures LoaderSettles(r, o) in steps
    ensures Offered(steps, r) <==> o.Returned? && o.value != Undefined
  {
    RunsHaveHistory(steps, r);
  }

  // ----- which calls are counted -----

  predicate ConsultedIff(p: Phase, answered: bool) {
    match p
    case Getting => !answered
    case Fallback(consulted) => consulted == answered
    case Waiting(_, consulted) => consulted == answered
    case Served(_) => answered
    case Loaded(_, consulted, _) => consulted == answered
  }

  lemma ConsultedStep(st: State, step: Step, c: Id, answered: bool)
    requires Enabled(st, step)
    requires if c in st.calls then ConsultedIff(st.calls[c].phase, answered) else !answered
    ensures var st', now := Next(st, step), answered || step == RedisAnswers(c);
            if c in st'.calls then ConsultedIff(st'.calls[c].phase, now) else !now
  {
  }

  lemma {:induction false} CallsAreConsulted(steps: seq<Step>, c: Id)
    requires IsTrace(steps)
    ensures var st, answered := Final(steps), RedisAnswers(c) in steps;
            if c in st.calls then ConsultedIff(st.calls[c].phase, answered) else !answered
  {
    if steps != [] {
      CallsAreConsulted(Front(steps), c);
      ConsultedStep(Final(Front(steps)), Last(steps), c, RedisAnswers(c) in Front(steps));
      InSnoc(steps, RedisAnswers(c));
    }
  }

  /** Of the settled calls exactly those that Redis gave an answer are counted. */
  lemma AnsweredIff(steps: seq<Step>, c: Id)
    requires IsTrace(steps) && c in Final(steps).calls
    requires Final(steps).calls[c].phase.Served? || Final(steps).calls[c].phase.Loaded?
    ensures c in Answered(Final(steps)) <==> RedisAnswers(c) in steps
  {
    CallsAreConsulted(steps, c);
  }

  /** Every settled call that got an answer out of Redis is counted once, in its own family; a call
      that skipped Redis, or whose Redis command failed, is counted nowhere. */
  lemma AccountingIsExact(steps: seq<Step>)
    requires IsTrace(steps)
    ensures forall f: Family :: Counter(Final(steps).counters, f) == |Members(Final(steps), f)|
    ensures Final(steps).counters.Total() == |Answered(Final(steps))|
  {
    TraceKeepsInv(steps);
    FamiliesPartition(Final(steps));
  }

  lemma FamiliesDisjoint(st: State, f: Family, g: Family)
    requires f != g
    ensures Members(st, f) !! Members(st, g)
  {
  }

  lemma SizeOfFour(a: set<Id>, b: set<Id>, c: set<Id>, d: set<Id>)
    requires a !! b && a !! c && a !! d && b !! c && b !! d && c !! d
    ensures |a + b + c + d| == |a| + |b| + |c| + |d|
  {
  }

  lemma AnsweredIsAllFamilies(st: State)
    ensures Answered(st) == Members(st, Hit) + Members(st, Miss) + Members(st, NegativeHit) + Members(st, NegativeMiss)
  {
    forall c | c in st.calls
      ensures c in Answered(st) <==> c in Members(st, Hit) + Members(st, Miss) + Members(st, NegativeHit) + Members(st, NegativeMiss)
    {
      assert c in Answered(st) <==> FamilyOf(st.calls[c].phase) != None;
    }
  }

  lemma FamiliesPartition(st: State)
    requires CountersExact(st)
    ensures st.counters.Total() == |Answered(st)|
  {
    AnsweredIsAllFamilies(st);
    FamiliesDisjoint(st, Hit, Miss); FamiliesDisjoint(st, Hit, NegativeHit); FamiliesDisjoint(st, Hit, NegativeMiss);
    FamiliesDisjoint(st, Miss, NegativeHit); FamiliesDisjoint(st, Miss, NegativeMiss);
    FamiliesDisjoint(st, NegativeHit, NegativeMiss);
    SizeOfFour(Members(st, Hit), Members(st, Miss), Members(st, NegativeHit), Members(st, NegativeMiss));
    assert Counter(st.counters, Hit) == |Members(st, Hit)| && Counter(st.counters, Miss) == |Members(st, Miss)|;
    assert Counter(st.counters, NegativeHit) == |Members(st, NegativeHit)|;
    assert Counter(st.counters, NegativeMiss) == |Members(st, NegativeMiss)|;
  }

  /** The settled calls that got an answer out of Redis. */
  function Answered(st: State): set<Id> {
    set c | c in st.calls && (st.calls[c].phase.Served? || (st.calls[c].phase.Loaded? && st.calls[c].phase.consulted))
  }
}
