/**
  Checkpointed polling: `pollOnce` and `runPollLoop` of `indexer/src/poll-loop.ts` over the transactional
  helpers of `indexer/src/db.ts`. A fault may strike at every database statement, and a COMMIT may take
  effect although its answer is lost. A crash is a fault after which nothing but the tables survives.
 */
module Ingestion {
  import opened Wrappers

  datatype Event = Event(ledger: int, key: nat)

  /** What is durable: the checkpoint row, and the event effects in the order they were applied. */
  datatype Tables = Tables(checkpoint: Option<int>, effects: seq<Event>)

  /** What `rpc.getEvents` comes back with. */
  datatype Answer = Events(events: seq<Event>, latestLedger: int) | LedgerGap | RpcError

  /** The statement that fails, if any. `AtEvent(i)` fails after `i` events; `AtCommit(applied)` loses
      the answer of the last statement, which may or may not have taken effect. */
  datatype Fault = NoFault | AtBegin | AtEvent(i: nat) | AtSave | AtCommit(applied: bool)

  /** The optional `recoverLedgerGap`: the tables it leaves behind and the checkpoint it reports. */
  datatype Hook = NoHook | Recovers(tables: Tables, ledger: int)

  datatype PollError = RpcFailed | GapDetected | RecoveryMismatch | DatabaseFailed

  datatype Poll = Poll(answer: Answer, fault: Fault, atomic: bool, hook: Hook)

  // ----- the database -----

  class Database {
    var tables: Tables
    var draft: Option<Tables>
    var checkedOut: nat

    constructor (tables: Tables)
      ensures this.tables == tables && draft == None && checkedOut == 0
    {
      this.tables, draft, checkedOut := tables, None, 0;
    }

    /** `processLedgerBatchWithCheckpoint`: one transaction for all effects and the checkpoint. Whatever
        fails, the tables hold all of it or none of it, and the client goes back to the pool; its
        transaction stays open exactly if the ROLLBACK fails too, which the code ignores, and a
        transaction was open until then. */
    method ProcessLedgerBatchWithCheckpoint(events: seq<Event>, ledger: int, fault: Fault, rollbackFails: bool)
      returns (ok: bool)
      requires draft == None
      modifies this
      ensures checkedOut == old(checkedOut)
      ensures draft.Some? <==> rollbackFails && FailsInside(fault, |events|)
      ensures ok <==> !Strikes(fault, |events|)
      ensures tables == if ok || fault == AtCommit(true) then Tables(Some(ledger), old(tables).effects + events)
                        else old(tables)
    {
      checkedOut := checkedOut + 1;
      ok := fault != AtBegin;
      if ok {
        draft := Some(tables);
        var i := 0;
        assert tables.effects + events[..i] == tables.effects;
        while i < |events| && ok
          invariant 0 <= i <= |events| && checkedOut == old(checkedOut) + 1
          invariant draft.Some?
          invariant ok ==> draft == Some(Tables(old(tables).checkpoint, old(tables).effects + events[..i]))
          invariant tables == old(tables)
          invariant ok <==> !(fault.AtEvent? && fault.i < i)
          invariant fault != AtBegin
          decreases |events| - i
        {
          if fault == AtEvent(i) {
            ok := false;
          } else {
            assert old(tables).effects + events[..i + 1] == old(tables).effects + events[..i] + [events[i]];
            draft := Some(draft.value.(effects := draft.value.effects + [events[i]]));
          }
          i := i + 1;
        }
        if ok {
          assert events[..i] == events;
          ok := fault != AtSave;
          if ok {
            draft := Some(draft.value.(checkpoint := Some(ledger)));
            ok := !fault.AtCommit?;
            if ok || fault.applied {
              tables, draft := draft.value, None;
            }
          }
        }
      }
      if !ok && !rollbackFails {
        draft := None;
      }
      checkedOut := checkedOut - 1;
    }

    /** The fallback: effects first, then the checkpoint, each durable on its own. */
    method InsertThenSave(events: seq<Event>, ledger: int, fault: Fault) returns (ok: bool)
      requires draft == None
      modifies this`tables
      ensures Fallback(old(tables), events, ledger, fault) == (tables, ok)
    {
      if |events| > 0 {
        var kept := if fault.AtEvent? && fault.i < |events| then fault.i else |events|;
        tables := tables.(effects := tables.effects + events[..kept]);
        if kept < |events| {
          return false;
        }
        assert events[..kept] == events;
      } else {
        assert tables.effects + events == tables.effects;
      }
      if fault == AtSave || fault == AtCommit(false) {
        return false;
      }
      tables := tables.(checkpoint := Some(ledger));
      return fault != AtCommit(true);
    }

    /** One iteration of the poll loop. */
    method PollOnce(defaultStart: int, poll: Poll) returns (r: Result<int, PollError>)
      requires draft == None
      modifies this
      ensures draft == None && checkedOut == old(checkedOut)
      ensures PollSpec(old(tables), defaultStart, poll) == (tables, r)
    {
      var checkpoint := tables.checkpoint;
      var start := StartLedger(checkpoint, defaultStart);
      match poll.answer {
        case RpcError => return Err(RpcFailed);
        case LedgerGap =>
          r := RecoverLedgerGap(poll.hook);
        case Events(events, latestLedger) =>
          var early := EarliestBefore(events, start);
          if early != None {
            r := RecoverLedgerGap(poll.hook);
            return;
          }
          if latestLedger < LastKnown(checkpoint, defaultStart) {
            r := RecoverLedgerGap(poll.hook);
            return;
          }
          var ok;
          if poll.atomic {
            ok := ProcessLedgerBatchWithCheckpoint(events, latestLedger, poll.fault, false);
          } else {
            ok := InsertThenSave(events, latestLedger, poll.fault);
          }
          r := if ok then Ok(latestLedger) else Err(DatabaseFailed);
      }
    }

    method RecoverLedgerGap(hook: Hook) returns (r: Result<int, PollError>)
      modifies this`tables
      ensures Recover(old(tables), hook) == (tables, r)
    {
      if hook.NoHook? {
        return Err(GapDetected);
      }
      tables := hook.tables;
      r := if tables.checkpoint != Some(hook.ledger) then Err(RecoveryMismatch) else Ok(hook.ledger);
    }

    /** `runPollLoop`: a failed iteration is logged, and the next one starts from the tables. */
    method RunPollLoop(defaultStart: int, polls: seq<Poll>)
      requires draft == None
      modifies this
      ensures tables == Run(old(tables), defaultStart, polls) && draft == None
    {
      var n := 0;
      while n < |polls|
        invariant 0 <= n <= |polls| && draft == None
        invariant Run(old(tables), defaultStart, polls) == Run(tables, defaultStart, polls[n..])
      {
        assert polls[n..][1..] == polls[n + 1..];
        var _ := PollOnce(defaultStart, polls[n]);
        n := n + 1;
      }
    }
  }

  /** The `reduce` over the answer: the smallest ledger below `start`, if there is one. */
  method EarliestBefore(events: seq<Event>, start: int) returns (early: Option<int>)
    ensures early == None <==> forall e | e in events :: e.ledger >= start
    ensures early.Some? ==> early.value < start && (exists e | e in events :: e.ledger == early.value)
                            && forall e | e in events :: e.ledger >= early.value
  {
    early := None;
    for i := 0 to |events|
      invariant early == None <==> forall e | e in events[..i] :: e.ledger >= start
      invariant early.Some? ==> early.value < start && (exists e | e in events[..i] :: e.ledger == early.value)
                                && forall e | e in events[..i] :: e.ledger >= early.value
    {
      assert events[..i + 1] == events[..i] + [events[i]];
      if events[i].ledger < start && (early == None || events[i].ledger < early.value) {
        early := Some(events[i].ledger);
        assert events[i] in events[..i + 1];
      }
    }
    assert events[..|events|] == events;
  }

  // ----- what one poll does to the tables -----

  function StartLedger(checkpoint: Option<int>, defaultStart: int): int {
    if checkpoint.Some? then checkpoint.value + 1 else defaultStart
  }

  function LastKnown(checkpoint: Option<int>, defaultStart: int): int { StartLedger(checkpoint, defaultStart) - 1 }

  predicate Strikes(fault: Fault, n: nat) { !fault.NoFault? && (fault.AtEvent? ==> fault.i < n) }

  /** The fault strikes while the transaction is open, and leaves it so. */
  predicate FailsInside(fault: Fault, n: nat) { Strikes(fault, n) && fault != AtBegin && fault != AtCommit(true) }

  function Fallback(t: Tables, events: seq<Event>, ledger: int, fault: Fault): (Tables, bool) {
    if fault.AtEvent? && fault.i < |events| then (t.(effects := t.effects + events[..fault.i]), false)
    else if fault == AtSave || fault == AtCommit(false) then (t.(effects := t.effects + events), false)
    else (Tables(Some(ledger), t.effects + events), fault != AtCommit(true))
  }

  function Atomic(t: Tables, events: seq<Event>, ledger: int, fault: Fault): (Tables, bool) {
    if !Strikes(fault, |events|) then (Tables(Some(ledger), t.effects + events), true)
    else if fault == AtCommit(true) then (Tables(Some(ledger), t.effects + events), false)
    else (t, false)
  }

  function Recover(t: Tables, hook: Hook): (Tables, Result<int, PollError>) {
    match hook
    case NoHook => (t, Err(GapDetected))
    case Recovers(t', ledger) => (t', if t'.checkpoint == Some(ledger) then Ok(ledger) else Err(RecoveryMismatch))
  }

  /** Whether the answer calls for recovery: a gap, an event before the start, or a chain tip behind
      what is already known. */
  predicate Suspicious(t: Tables, defaultStart: int, answer: Answer) {
    match answer
    case LedgerGap => true
    case RpcError => false
    case Events(events, latest) =>
      || (exists e | e in events :: e.ledger < StartLedger(t.checkpoint, defaultStart))
      || latest < LastKnown(t.checkpoint, defaultStart)
  }

  function PollSpec(t: Tables, defaultStart: int, poll: Poll): (Tables, Result<int, PollError>) {
    if poll.answer.RpcError? then (t, Err(RpcFailed))
    else if Suspicious(t, defaultStart, poll.answer) then Recover(t, poll.hook)
    else
      var (t', ok) := if poll.atomic then Atomic(t, poll.answer.events, poll.answer.latestLedger, poll.fault)
                      else Fallback(t, poll.answer.events, poll.answer.latestLedger, poll.fault);
      (t', if ok then Ok(poll.answer.latestLedger) else Err(DatabaseFailed))
  }

  function Run(t: Tables, defaultStart: int, polls: seq<Poll>): Tables
    decreases |polls|
  {
    if polls == [] then t else Run(PollSpec(t, defaultStart, polls[0]).0, defaultStart, polls[1..])
  }

  // ----- the chain, and honest answers -----

  /** The finished history of the chain: the events of each ledger, in order. */
  type Chain = c: map<int, seq<Event>> | WellPlaced(c) witness map[]

  predicate WellPlaced(c: map<int, seq<Event>>) { forall l | l in c :: forall e | e in c[l] :: e.ledger == l }

  function EventsOf(chain: Chain, ledger: int): seq<Event> { if ledger in chain then chain[ledger] else [] }

  /** Every event from ledger `lo` through ledger `hi`. */
  function Window(chain: Chain, lo: int, hi: int): seq<Event>
    decreases hi - lo
  {
    if hi < lo then [] else Window(chain, lo, hi - 1) + EventsOf(chain, hi)
  }

  /** An answer with every event from the requested ledger through the reported tip. */
  predicate Honest(chain: Chain, start: int, answer: Answer) {
    answer.Events? ==> answer.events == Window(chain, start, answer.latestLedger)
  }

  predicate HonestRun(chain: Chain, t: Tables, defaultStart: int, polls: seq<Poll>)
    decreases |polls|
  {
    polls == [] ||
    (Honest(chain, StartLedger(t.checkpoint, defaultStart), polls[0].answer)
     && HonestRun(chain, PollSpec(t, defaultStart, polls[0]).0, defaultStart, polls[1..]))
  }

  lemma {:induction false} WindowSplits(chain: Chain, lo: int, mid: int, hi: int)
    requires lo <= mid + 1 && mid <= hi
    ensures Window(chain, lo, hi) == Window(chain, lo, mid) + Window(chain, mid + 1, hi)
    decreases hi - mid
  {
    if mid == hi {
      assert Window(chain, mid + 1, hi) == [];
    } else {
      WindowSplits(chain, lo, mid, hi - 1);
      Associates(Window(chain, lo, mid), Window(chain, mid + 1, hi - 1), EventsOf(chain, hi));
    }
  }

  lemma Associates<T>(a: seq<T>, b: seq<T>, c: seq<T>)
    ensures (a + b) + c == a + (b + c)
  {
  }

  lemma {:induction false} WindowInRange(chain: Chain, lo: int, hi: int, e: Event)
    ensures e in Window(chain, lo, hi) <==> lo <= e.ledger <= hi && e in EventsOf(chain, e.ledger)
    decreases hi - lo
  {
    if hi >= lo {
      WindowInRange(chain, lo, hi - 1, e);
    }
  }

  /** How often an event occurs in a window: as often as in its own ledger. */
  lemma {:induction false} WindowCount(chain: Chain, lo: int, hi: int, e: Event)
    ensures multiset(Window(chain, lo, hi))[e]
         == (if lo <= e.ledger <= hi then multiset(EventsOf(chain, e.ledger))[e] else 0)
    decreases hi - lo
  {
    if hi >= lo {
      WindowCount(chain, lo, hi - 1, e);
      assert e in EventsOf(chain, hi) ==> e.ledger == hi;
      assert multiset(EventsOf(chain, hi))[e] > 0 ==> e in EventsOf(chain, hi);
    }
  }

  // ----- over whole runs -----

  predicate NoHooks(polls: seq<Poll>) { forall p | p in polls :: p.hook.NoHook? }

  predicate Recedes(before: Tables, after: Tables) {
    before.checkpoint.Some? && (after.checkpoint == None || after.checkpoint.value < before.checkpoint.value)
  }

  /** Outside the recovery hook no poll moves the checkpoint back, whatever the RPC answers and wherever
      a fault strikes. */
  lemma {:induction false} CheckpointNeverDecreases(t: Tables, defaultStart: int, polls: seq<Poll>)
    requires NoHooks(polls)
    ensures !Recedes(t, Run(t, defaultStart, polls))
    decreases |polls|
  {
    if polls != [] {
      assert polls[0] in polls;
      CheckpointNeverDecreases(PollSpec(t, defaultStart, polls[0]).0, defaultStart, polls[1..]);
    }
  }

  /** With the hook, a poll moves the checkpoint back exactly when the answer was suspicious and the hook
      left it further back; reporting success then needs the hook to have named that very checkpoint. */
  lemma OnlyTheHookMovesBack(t: Tables, defaultStart: int, poll: Poll)
    ensures Recedes(t, PollSpec(t, defaultStart, poll).0)
       <==> Suspicious(t, defaultStart, poll.answer) && poll.hook.Recovers? && Recedes(t, poll.hook.tables)
    ensures Suspicious(t, defaultStart, poll.answer) && PollSpec(t, defaultStart, poll).1.Ok?
        ==> PollSpec(t, defaultStart, poll).0.checkpoint == Some(PollSpec(t, defaultStart, poll).1.value)
  {
  }

  // ----- answers that are not to be trusted -----

  /** The event is from a ledger that the tables have dealt with. */
  predicate Old(t: Tables, defaultStart: int, e: Event) {
    match t.checkpoint
    case Some(last) => e.ledger <= last
    case None => e.ledger < defaultStart
  }

  /** When a poll is refused and left to the recovery hook: the RPC reports a gap, some event's ledger is at
      or below the checkpoint (or below the default start), or the tip is behind what is known. */
  lemma RefusedIff(t: Tables, defaultStart: int, poll: Poll)
    requires poll.hook.NoHook?
    ensures PollSpec(t, defaultStart, poll).1 == Err(GapDetected) <==>
              || poll.answer.LedgerGap?
              || (poll.answer.Events? && ((exists e | e in poll.answer.events :: Old(t, defaultStart, e))
                                          || match t.checkpoint
                                             case Some(last) => poll.answer.latestLedger < last
                                             case None => poll.answer.latestLedger < defaultStart - 1))
    ensures PollSpec(t, defaultStart, poll).1 == Err(GapDetected) ==> PollSpec(t, defaultStart, poll).0 == t
  {
    if poll.answer.Events? {
      forall e ensures Old(t, defaultStart, e) <==> e.ledger < StartLedger(t.checkpoint, defaultStart) {
      }
    }
  }

  /** The fault strikes none of the poll's statements; the fallback branch has no BEGIN. */
  predicate Spared(poll: Poll) {
    && poll.answer.Events?
    && match poll.fault
       case NoFault => true
       case AtBegin => !poll.atomic
       case AtEvent(i) => i >= |poll.answer.events|
       case AtSave => false
       case AtCommit(_) => false
  }

  /** A poll that is not refused reports success exactly if no statement of it fails, and then all its
      events and its tip are stored. If it fails on the atomic branch nothing is stored, unless only the
      answer of the COMMIT got lost; on the fallback branch the events before the failing one are, and the
      tip only if it was the last answer that got lost. */
  lemma PollOutcome(t: Tables, defaultStart: int, poll: Poll)
    requires poll.hook.NoHook? && poll.answer.Events? && PollSpec(t, defaultStart, poll).1 != Err(GapDetected)
    ensures var (u, r) := PollSpec(t, defaultStart, poll);
            var all := Tables(Some(poll.answer.latestLedger), t.effects + poll.answer.events);
            && (r.Ok? <==> Spared(poll)) && (r.Ok? ==> r.value == poll.answer.latestLedger)
            && (r.Ok? || poll.fault == AtCommit(true) ==> u == all)
            && (!r.Ok? && poll.fault != AtCommit(true) ==>
                  && u.checkpoint == t.checkpoint
                  && u.effects == if poll.atomic then t.effects
                                  else t.effects + if poll.fault.AtEvent? then poll.answer.events[..poll.fault.i] else poll.answer.events)
  {
  }

  /** What the tables have beyond `t`, when they only grew. */
  predicate GrewByNew(t: Tables, defaultStart: int, u: Tables) {
    t.effects <= u.effects && forall i | |t.effects| <= i < |u.effects| :: !Old(t, defaultStart, u.effects[i])
  }

  lemma PollAddsNewEvents(t: Tables, defaultStart: int, poll: Poll)
    requires poll.hook.NoHook?
    ensures GrewByNew(t, defaultStart, PollSpec(t, defaultStart, poll).0)
  {
    if poll.answer.Events? && !Suspicious(t, defaultStart, poll.answer) {
      var u := PollSpec(t, defaultStart, poll).0;
      forall i | |t.effects| <= i < |u.effects| ensures !Old(t, defaultStart, u.effects[i]) {
        assert u.effects[i] == poll.answer.events[i - |t.effects|];
        assert u.effects[i] in poll.answer.events;
      }
    }
  }

  lemma GrewOn(t: Tables, defaultStart: int, u: Tables, v: Tables)
    requires GrewByNew(t, defaultStart, u) && GrewByNew(u, defaultStart, v) && !Recedes(t, u)
    requires t.checkpoint == None && u.checkpoint.Some? ==> u.checkpoint.value >= defaultStart - 1
    ensures GrewByNew(t, defaultStart, v)
  {
    forall i | |t.effects| <= i < |v.effects| ensures !Old(t, defaultStart, v.effects[i]) {
      if i < |u.effects| {
        assert v.effects[i] == u.effects[i];
      }
    }
  }

  /** Whatever the RPC answers, honestly or not, and wherever faults strike, on either branch: a run without
      a recovery hook only adds effects, and none from a ledger at or below the checkpoint it began with. */
  lemma {:induction false} RunAddsNewEvents(t: Tables, defaultStart: int, polls: seq<Poll>)
    requires NoHooks(polls)
    ensures GrewByNew(t, defaultStart, Run(t, defaultStart, polls))
    decreases |polls|
  {
    if polls != [] {
      assert polls[0] in polls;
      var u := PollSpec(t, defaultStart, polls[0]).0;
      PollAddsNewEvents(t, defaultStart, polls[0]);
      RunAddsNewEvents(u, defaultStart, polls[1..]);
      GrewOn(t, defaultStart, u, Run(u, defaultStart, polls[1..]));
    }
  }

  /** No event of the answer is beyond its own tip. */
  predicate WithinTip(answer: Answer) { answer.Events? ==> forall e | e in answer.events :: e.ledger <= answer.latestLedger }

  predicate AllOld(t: Tables, defaultStart: int) { forall e | e in t.effects :: Old(t, defaultStart, e) }

  lemma PollKeepsAllOld(t: Tables, defaultStart: int, poll: Poll)
    requires AllOld(t, defaultStart) && poll.hook.NoHook? && poll.atomic && WithinTip(poll.answer)
    ensures AllOld(PollSpec(t, defaultStart, poll).0, defaultStart)
  {
  }

  lemma {:induction false} RunKeepsAllOld(t: Tables, defaultStart: int, polls: seq<Poll>)
    requires AllOld(t, defaultStart) && NoHooks(polls)
    requires forall p | p in polls :: p.atomic && WithinTip(p.answer)
    ensures AllOld(Run(t, defaultStart, polls), defaultStart)
    decreases |polls|
  {
    if polls != [] {
      assert polls[0] in polls;
      PollKeepsAllOld(t, defaultStart, polls[0]);
      RunKeepsAllOld(PollSpec(t, defaultStart, polls[0]).0, defaultStart, polls[1..]);
    }
  }

  /** On the atomic branch an event is stored by one poll at most, although answers may leave events out or
      repeat old ones: it suffices that no answer has an event beyond its own tip. */
  lemma StoredByOnePoll(t: Tables, defaultStart: int, polls: seq<Poll>, more: seq<Poll>)
    requires AllOld(t, defaultStart) && NoHooks(polls) && NoHooks(more)
    requires forall p | p in polls :: p.atomic && WithinTip(p.answer)
    ensures var u := Run(t, defaultStart, polls); var v := Run(u, defaultStart, more);
            && u.effects <= v.effects
            && forall e, i | e in u.effects && |u.effects| <= i < |v.effects| :: v.effects[i].ledger > e.ledger
  {
    RunKeepsAllOld(t, defaultStart, polls);
    RunAddsNewEvents(Run(t, defaultStart, polls), defaultStart, more);
  }

  /** The effects are the chain's events from the first ledger through the checkpoint, in order. */
  predicate Exact(chain: Chain, defaultStart: int, t: Tables) {
    && LastKnown(t.checkpoint, defaultStart) >= defaultStart - 1
    && t.effects == Window(chain, defaultStart, LastKnown(t.checkpoint, defaultStart))
  }

  lemma PollKeepsExact(chain: Chain, defaultStart: int, t: Tables, poll: Poll)
    requires Exact(chain, defaultStart, t) && poll.atomic && poll.hook.NoHook?
    requires Honest(chain, StartLedger(t.checkpoint, defaultStart), poll.answer)
    ensures Exact(chain, defaultStart, PollSpec(t, defaultStart, poll).0)
  {
    if poll.answer.Events? && !Suspicious(t, defaultStart, poll.answer) {
      WindowSplits(chain, defaultStart, LastKnown(t.checkpoint, defaultStart), poll.answer.latestLedger);
    }
  }

  /** On the atomic branch the tables always hold exactly the events up to the checkpoint, in order: no
      fault, crash or lost COMMIT answer skips one or applies one twice. */
  lemma {:induction false} AtomicRunIsExact(chain: Chain, defaultStart: int, t: Tables, polls: seq<Poll>)
    requires Exact(chain, defaultStart, t) && HonestRun(chain, t, defaultStart, polls)
    requires NoHooks(polls) && forall p | p in polls :: p.atomic
    ensures Exact(chain, defaultStart, Run(t, defaultStart, polls))
    decreases |polls|
  {
    if polls != [] {
      assert polls[0] in polls;
      PollKeepsExact(chain, defaultStart, t, polls[0]);
      AtomicRunIsExact(chain, defaultStart, PollSpec(t, defaultStart, polls[0]).0, polls[1..]);
    }
  }

  /** In counts: an event at or below the checkpoint has been applied as often as the chain has it (once,
      if its ledger lists it once), and an event above it not at all. */
  lemma AtomicRunAppliesOnce(chain: Chain, defaultStart: int, polls: seq<Poll>, e: Event)
    requires HonestRun(chain, Tables(None, []), defaultStart, polls)
    requires NoHooks(polls) && forall p | p in polls :: p.atomic
    ensures var t := Run(Tables(None, []), defaultStart, polls);
            multiset(t.effects)[e]
            == (if defaultStart <= e.ledger && t.checkpoint.Some? && e.ledger <= t.checkpoint.value
                then multiset(EventsOf(chain, e.ledger))[e] else 0)
  {
    AtomicRunIsExact(chain, defaultStart, Tables(None, []), polls);
    var t := Run(Tables(None, []), defaultStart, polls);
    WindowCount(chain, defaultStart, LastKnown(t.checkpoint, defaultStart), e);
  }

  /** Everything up to the checkpoint is there, and nothing that the chain does not have. */
  predicate Covered(chain: Chain, defaultStart: int, t: Tables) {
    && LastKnown(t.checkpoint, defaultStart) >= defaultStart - 1
    && (forall e | e in Window(chain, defaultStart, LastKnown(t.checkpoint, defaultStart)) :: e in t.effects)
    && (forall e | e in t.effects :: e.ledger >= defaultStart && e in EventsOf(chain, e.ledger))
  }

  lemma PollKeepsCovered(chain: Chain, defaultStart: int, t: Tables, poll: Poll)
    requires Covered(chain, defaultStart, t) && poll.hook.NoHook?
    requires Honest(chain, StartLedger(t.checkpoint, defaultStart), poll.answer)
    ensures Covered(chain, defaultStart, PollSpec(t, defaultStart, poll).0)
  {
    if poll.answer.Events? && !Suspicious(t, defaultStart, poll.answer) {
      var known, tip := LastKnown(t.checkpoint, defaultStart), poll.answer.latestLedger;
      var t' := PollSpec(t, defaultStart, poll).0;
      WindowSplits(chain, defaultStart, known, tip);
      forall e | e in t'.effects ensures e.ledger >= defaultStart && e in EventsOf(chain, e.ledger) {
        if e !in t.effects {
          WindowInRange(chain, known + 1, tip, e);
          assert e in poll.answer.events;
        }
      }
    }
  }

  /** On either branch, and mixing them: every event at or below the checkpoint has been applied before
      the checkpoint got there. */
  lemma {:induction false} EveryRunCovers(chain: Chain, defaultStart: int, t: Tables, polls: seq<Poll>)
    requires Covered(chain, defaultStart, t) && HonestRun(chain, t, defaultStart, polls) && NoHooks(polls)
    ensures Covered(chain, defaultStart, Run(t, defaultStart, polls))
    decreases |polls|
  {
    if polls != [] {
      assert polls[0] in polls;
      PollKeepsCovered(chain, defaultStart, t, polls[0]);
      EveryRunCovers(chain, defaultStart, PollSpec(t, defaultStart, polls[0]).0, polls[1..]);
    }
  }

  /** The poll's answer is taken, and on the fallback branch its fault strikes after an effect has been
      stored and before the checkpoint is. */
  predicate Torn(t: Tables, defaultStart: int, poll: Poll) {
    && poll.answer.Events? && !Suspicious(t, defaultStart, poll.answer) && !poll.atomic
    && var n := |poll.answer.events|;
       (poll.fault.AtEvent? && 0 < poll.fault.i < n) || (n > 0 && (poll.fault == AtSave || poll.fault == AtCommit(false)))
  }

  /** Some poll of the run is torn. */
  predicate TornRun(t: Tables, defaultStart: int, polls: seq<Poll>)
    decreases |polls|
  {
    polls != [] &&
    (Torn(t, defaultStart, polls[0]) || TornRun(PollSpec(t, defaultStart, polls[0]).0, defaultStart, polls[1..]))
  }

  /** How many effects the tables hold beyond the chain's, up to the checkpoint. */
  function Excess(chain: Chain, defaultStart: int, t: Tables): int {
    |t.effects| - |Window(chain, defaultStart, LastKnown(t.checkpoint, defaultStart))|
  }

  /** A torn poll adds to the excess, and nothing ever takes from it. */
  lemma PollExcess(chain: Chain, defaultStart: int, t: Tables, poll: Poll)
    requires LastKnown(t.checkpoint, defaultStart) >= defaultStart - 1 && poll.hook.NoHook?
    requires Honest(chain, StartLedger(t.checkpoint, defaultStart), poll.answer)
    ensures var u := PollSpec(t, defaultStart, poll).0;
            && LastKnown(u.checkpoint, defaultStart) >= defaultStart - 1
            && Excess(chain, defaultStart, u) >= Excess(chain, defaultStart, t)
            && (Torn(t, defaultStart, poll) ==> Excess(chain, defaultStart, u) > Excess(chain, defaultStart, t))
  {
    if poll.answer.Events? && !Suspicious(t, defaultStart, poll.answer) {
      WindowSplits(chain, defaultStart, LastKnown(t.checkpoint, defaultStart), poll.answer.latestLedger);
    }
  }

  lemma {:induction false} RunExcess(chain: Chain, defaultStart: int, t: Tables, polls: seq<Poll>)
    requires LastKnown(t.checkpoint, defaultStart) >= defaultStart - 1
    requires HonestRun(chain, t, defaultStart, polls) && NoHooks(polls)
    ensures Excess(chain, defaultStart, Run(t, defaultStart, polls)) >= Excess(chain, defaultStart, t)
    ensures TornRun(t, defaultStart, polls) ==>
              Excess(chain, defaultStart, Run(t, defaultStart, polls)) > Excess(chain, defaultStart, t)
    decreases |polls|
  {
    if polls != [] {
      assert polls[0] in polls;
      PollExcess(chain, defaultStart, t, polls[0]);
      RunExcess(chain, defaultStart, PollSpec(t, defaultStart, polls[0]).0, polls[1..]);
    }
  }

  lemma UntornPollKeepsExact(chain: Chain, defaultStart: int, t: Tables, poll: Poll)
    requires Exact(chain, defaultStart, t) && poll.hook.NoHook? && !Torn(t, defaultStart, poll)
    requires Honest(chain, StartLedger(t.checkpoint, defaultStart), poll.answer)
    ensures Exact(chain, defaultStart, PollSpec(t, defaultStart, poll).0)
  {
    if poll.atomic {
      PollKeepsExact(chain, defaultStart, t, poll);
    } else if poll.answer.Events? && !Suspicious(t, defaultStart, poll.answer) {
      WindowSplits(chain, defaultStart, LastKnown(t.checkpoint, defaultStart), poll.answer.latestLedger);
      assert t.effects + [] == t.effects;
    }
  }

  /** From exact tables a run, on either branch or mixing them, ends exact if and only if none of its polls
      is torn; once an event has been applied twice, no later poll mends it. */
  lemma {:induction false} RunIsExactIff(chain: Chain, defaultStart: int, t: Tables, polls: seq<Poll>)
    requires Exact(chain, defaultStart, t) && HonestRun(chain, t, defaultStart, polls) && NoHooks(polls)
    ensures Exact(chain, defaultStart, Run(t, defaultStart, polls)) <==> !TornRun(t, defaultStart, polls)
    decreases |polls|
  {
    if polls != [] {
      assert polls[0] in polls;
      if Torn(t, defaultStart, polls[0]) {
        RunExcess(chain, defaultStart, t, polls);
      } else {
        UntornPollKeepsExact(chain, defaultStart, t, polls[0]);
        RunIsExactIff(chain, defaultStart, PollSpec(t, defaultStart, polls[0]).0, polls[1..]);
      }
    }
  }

  /** The fallback really is only at-least-once: a lost checkpoint write applies an event twice. */
  lemma FallbackCanApplyTwice() returns (chain: Chain, polls: seq<Poll>, e: Event)
    ensures HonestRun(chain, Tables(None, []), 1, polls) && NoHooks(polls)
    ensures multiset(EventsOf(chain, e.ledger))[e] == 1
    ensures multiset(Run(Tables(None, []), 1, polls).effects)[e] == 2
  {
    e := Event(1, 0);
    chain := map[1 := [e]];
    var first, second := Poll(Events([e], 1), AtSave, false, NoHook), Poll(Events([e], 1), NoFault, false, NoHook);
    polls := [first, second];
    var none, once, twice := Tables(None, []), Tables(None, [e]), Tables(Some(1), [e, e]);
    FirstWindow(chain, e);
    assert PollSpec(none, 1, first).0 == once by {
      assert [] + [e] == [e];
    }
    assert PollSpec(once, 1, second).0 == twice by {
      assert [e] + [e] == [e, e];
    }
    TwoPolls(chain, none, first, second);
    assert Run(none, 1, polls) == twice;
  }

  lemma FirstWindow(chain: Chain, e: Event)
    requires 1 in chain && chain[1] == [e]
    ensures Window(chain, 1, 1) == [e]
  {
    assert Window(chain, 1, 1) == Window(chain, 1, 0) + [e];
  }

  lemma TwoPolls(chain: Chain, t: Tables, p: Poll, q: Poll)
    ensures Run(t, 1, [p, q]) == PollSpec(PollSpec(t, 1, p).0, 1, q).0
    ensures HonestRun(chain, t, 1, [p, q]) <==>
              && Honest(chain, StartLedger(t.checkpoint, 1), p.answer)
              && Honest(chain, StartLedger(PollSpec(t, 1, p).0.checkpoint, 1), q.answer)
  {
    var u := PollSpec(t, 1, p).0;
    assert [p, q][1..] == [q] && [q][1..] == [];
    assert Run(u, 1, [q]) == PollSpec(u, 1, q).0;
    assert HonestRun(chain, u, 1, [q]) <==> Honest(chain, StartLedger(u.checkpoint, 1), q.answer);
  }

  // ----- why the poller has to be a singleton -----

  /** A poll that read checkpoint `read`, and commits atomically when the tables are already at `t`. */
  function CommitLate(t: Tables, events: seq<Event>, tip: int): Tables { Tables(Some(tip), t.effects + events) }

  /** If another poller has moved the checkpoint from `read` to `t.checkpoint` meanwhile, the late commit
      keeps the tables exact if and only if no event lies in between, and moves the checkpoint back if
      and only if its tip is behind. */
  lemma LateCommitIsExactIff(chain: Chain, defaultStart: int, t: Tables, read: int, tip: int)
    requires Exact(chain, defaultStart, t) && t.checkpoint.Some?
    requires defaultStart - 1 <= read <= t.checkpoint.value && read <= tip
    ensures Exact(chain, defaultStart, CommitLate(t, Window(chain, read + 1, tip), tip))
       <==> Window(chain, read + 1, t.checkpoint.value) == []
    ensures Recedes(t, CommitLate(t, Window(chain, read + 1, tip), tip)) <==> tip < t.checkpoint.value
  {
    var cur := t.checkpoint.value;
    WindowSplits(chain, defaultStart, read, cur);
    WindowSplits(chain, defaultStart, read, tip);
    DropMiddle(Window(chain, defaultStart, read), Window(chain, read + 1, cur), Window(chain, read + 1, tip));
  }

  lemma DropMiddle<T>(a: seq<T>, b: seq<T>, c: seq<T>)
    ensures (a + b) + c == a + c <==> b == []
  {
    assert |(a + b) + c| == |a + c| + |b|;
    assert a + [] == a;
  }

  // ----- any number of pollers -----

  /** Any number of polls in flight on the atomic branch: `read` is the last ledger each knew when it
      started. `high` is bookkeeping of the model: the highest checkpoint there ever was. */
  datatype Pollers = Pollers(tables: Tables, read: map<nat, int>, high: int)

  /** A poll reads the checkpoint; it commits an honest answer up to `tip`; or it fails. */
  datatype PollerStep = Reads(p: nat) | Commits(p: nat, tip: int) | Fails(p: nat)

  predicate StepEnabled(st: Pollers, step: PollerStep) {
    match step
    case Reads(p) => p !in st.read
    case Commits(p, tip) => p in st.read && st.read[p] <= tip
    case Fails(p) => p in st.read
  }

  function AfterStep(chain: Chain, defaultStart: int, st: Pollers, step: PollerStep): Pollers
    requires StepEnabled(st, step)
  {
    match step
    case Reads(p) => st.(read := st.read[p := LastKnown(st.tables.checkpoint, defaultStart)])
    case Commits(p, tip) =>
      Pollers(CommitLate(st.tables, Window(chain, st.read[p] + 1, tip), tip), st.read - {p},
              if tip > st.high then tip else st.high)
    case Fails(p) => st.(read := st.read - {p})
  }

  predicate IsPollersRun(chain: Chain, defaultStart: int, st: Pollers, steps: seq<PollerStep>)
    decreases |steps|
  {
    steps == [] ||
    (StepEnabled(st, steps[0]) && IsPollersRun(chain, defaultStart, AfterStep(chain, defaultStart, st, steps[0]), steps[1..]))
  }

  function AfterPollers(chain: Chain, defaultStart: int, st: Pollers, steps: seq<PollerStep>): Pollers
    requires IsPollersRun(chain, defaultStart, st, steps)
    decreases |steps|
  {
    if steps == [] then st
    else AfterPollers(chain, defaultStart, AfterStep(chain, defaultStart, st, steps[0]), steps[1..])
  }

  /** The commit stores an event again that is at or below the highest checkpoint so far. */
  predicate Reapplies(chain: Chain, st: Pollers, step: PollerStep)
    requires StepEnabled(st, step)
  {
    step.Commits? && Window(chain, st.read[step.p] + 1, if step.tip > st.high then st.high else step.tip) != []
  }

  predicate RunReapplies(chain: Chain, defaultStart: int, st: Pollers, steps: seq<PollerStep>)
    requires IsPollersRun(chain, defaultStart, st, steps)
    decreases |steps|
  {
    steps != [] &&
    (Reapplies(chain, st, steps[0])
     || RunReapplies(chain, defaultStart, AfterStep(chain, defaultStart, st, steps[0]), steps[1..]))
  }

  predicate PollersOk(defaultStart: int, st: Pollers) {
    && defaultStart - 1 <= LastKnown(st.tables.checkpoint, defaultStart) <= st.high
    && forall p | p in st.read :: defaultStart - 1 <= st.read[p] <= st.high
  }

  function Surplus(chain: Chain, defaultStart: int, st: Pollers): int {
    |st.tables.effects| - |Window(chain, defaultStart, st.high)|
  }

  lemma StepKeepsPollersOk(chain: Chain, defaultStart: int, st: Pollers, step: PollerStep)
    requires PollersOk(defaultStart, st) && StepEnabled(st, step)
    ensures PollersOk(defaultStart, AfterStep(chain, defaultStart, st, step))
  {
  }

  lemma StepSurplus(chain: Chain, defaultStart: int, st: Pollers, step: PollerStep)
    requires PollersOk(defaultStart, st) && StepEnabled(st, step)
    ensures var st' := AfterStep(chain, defaultStart, st, step);
            && Surplus(chain, defaultStart, st') >= Surplus(chain, defaultStart, st)
            && (Reapplies(chain, st, step) ==> Surplus(chain, defaultStart, st') > Surplus(chain, defaultStart, st))
  {
    if step.Commits? && step.tip > st.high {
      WindowSplits(chain, defaultStart, st.high, step.tip);
      WindowSplits(chain, st.read[step.p] + 1, st.high, step.tip);
    }
  }

  lemma FreshStepKeepsAll(chain: Chain, defaultStart: int, st: Pollers, step: PollerStep)
    requires PollersOk(defaultStart, st) && StepEnabled(st, step) && !Reapplies(chain, st, step)
    requires st.tables.effects == Window(chain, defaultStart, st.high)
    ensures var st' := AfterStep(chain, defaultStart, st, step);
            st'.tables.effects == Window(chain, defaultStart, st'.high)
  {
    if step.Commits? {
      assert st.tables.effects + [] == st.tables.effects;
      if step.tip > st.high {
        WindowSplits(chain, defaultStart, st.high, step.tip);
        WindowSplits(chain, st.read[step.p] + 1, st.high, step.tip);
        assert [] + Window(chain, st.high + 1, step.tip) == Window(chain, st.high + 1, step.tip);
      }
    }
  }

  lemma {:induction false} PollersSurplus(chain: Chain, defaultStart: int, st: Pollers, steps: seq<PollerStep>)
    requires PollersOk(defaultStart, st) && IsPollersRun(chain, defaultStart, st, steps)
    ensures var st' := AfterPollers(chain, defaultStart, st, steps);
            && PollersOk(defaultStart, st') && Surplus(chain, defaultStart, st') >= Surplus(chain, defaultStart, st)
            && (RunReapplies(chain, defaultStart, st, steps) ==>
                  Surplus(chain, defaultStart, st') > Surplus(chain, defaultStart, st))
    decreases |steps|
  {
    if steps != [] {
      StepKeepsPollersOk(chain, defaultStart, st, steps[0]);
      StepSurplus(chain, defaultStart, st, steps[0]);
      PollersSurplus(chain, defaultStart, AfterStep(chain, defaultStart, st, steps[0]), steps[1..]);
    }
  }

  lemma {:induction false} FreshRunKeepsAll(chain: Chain, defaultStart: int, st: Pollers, steps: seq<PollerStep>)
    requires PollersOk(defaultStart, st) && IsPollersRun(chain, defaultStart, st, steps)
    requires st.tables.effects == Window(chain, defaultStart, st.high) && !RunReapplies(chain, defaultStart, st, steps)
    ensures var st' := AfterPollers(chain, defaultStart, st, steps);
            st'.tables.effects == Window(chain, defaultStart, st'.high)
    decreases |steps|
  {
    if steps != [] {
      StepKeepsPollersOk(chain, defaultStart, st, steps[0]);
      FreshStepKeepsAll(chain, defaultStart, st, steps[0]);
      FreshRunKeepsAll(chain, defaultStart, AfterStep(chain, defaultStart, st, steps[0]), steps[1..]);
    }
  }

  /** With any number of pollers on the atomic branch, a run from exact tables ends exact if and only if no
      commit stored an event again, and none of the chain's events lies between the last checkpoint and
      the highest one. */
  lemma PollersExactIff(chain: Chain, defaultStart: int, st: Pollers, steps: seq<PollerStep>)
    requires Exact(chain, defaultStart, st.tables) && st.high == LastKnown(st.tables.checkpoint, defaultStart)
    requires st.read == map[] && IsPollersRun(chain, defaultStart, st, steps)
    ensures var st' := AfterPollers(chain, defaultStart, st, steps);
            Exact(chain, defaultStart, st'.tables) <==>
              && !RunReapplies(chain, defaultStart, st, steps)
              && Window(chain, LastKnown(st'.tables.checkpoint, defaultStart) + 1, st'.high) == []
  {
    var st' := AfterPollers(chain, defaultStart, st, steps);
    var known := LastKnown(st'.tables.checkpoint, defaultStart);
    PollersSurplus(chain, defaultStart, st, steps);
    WindowSplits(chain, defaultStart, known, st'.high);
    if !RunReapplies(chain, defaultStart, st, steps) {
      FreshRunKeepsAll(chain, defaultStart, st, steps);
    }
  }

  /** Each poll of the run starts when no other is in flight. */
  predicate OneAtATime(chain: Chain, defaultStart: int, st: Pollers, steps: seq<PollerStep>)
    requires IsPollersRun(chain, defaultStart, st, steps)
    decreases |steps|
  {
    steps == [] ||
    ((steps[0].Reads? ==> st.read == map[])
     && OneAtATime(chain, defaultStart, AfterStep(chain, defaultStart, st, steps[0]), steps[1..]))
  }

  predicate Single(defaultStart: int, st: Pollers) {
    && st.high == LastKnown(st.tables.checkpoint, defaultStart)
    && (forall p | p in st.read :: st.read[p] == st.high)
    && forall p, q | p in st.read && q in st.read :: p == q
  }

  /** That is what the singleton lock is for: then nothing is stored again and the checkpoint is the highest. */
  lemma {:induction false} OneAtATimeIsExact(chain: Chain, defaultStart: int, st: Pollers, steps: seq<PollerStep>)
    requires Exact(chain, defaultStart, st.tables) && Single(defaultStart, st)
    requires IsPollersRun(chain, defaultStart, st, steps) && OneAtATime(chain, defaultStart, st, steps)
    ensures Exact(chain, defaultStart, AfterPollers(chain, defaultStart, st, steps).tables)
    ensures !RunReapplies(chain, defaultStart, st, steps)
    decreases |steps|
  {
    if steps != [] {
      var st' := AfterStep(chain, defaultStart, st, steps[0]);
      assert Single(defaultStart, st');
      FreshStepKeepsAll(chain, defaultStart, st, steps[0]);
      OneAtATimeIsExact(chain, defaultStart, st', steps[1..]);
    }
  }

  /** A poll that runs through without another step in between is a poll of the atomic branch. */
  lemma UndisturbedPollIsAPoll(chain: Chain, defaultStart: int, st: Pollers, p: nat, tip: int)
    requires p !in st.read
    requires tip >= LastKnown(st.tables.checkpoint, defaultStart)
    ensures var answer := Events(Window(chain, StartLedger(st.tables.checkpoint, defaultStart), tip), tip);
            var begun := AfterStep(chain, defaultStart, st, Reads(p));
            && StepEnabled(begun, Commits(p, tip)) && StepEnabled(begun, Fails(p))
            && AfterStep(chain, defaultStart, begun, Commits(p, tip)).tables
               == PollSpec(st.tables, defaultStart, Poll(answer, NoFault, true, NoHook)).0
            && AfterStep(chain, defaultStart, begun, Commits(p, tip)).read == st.read
            && AfterStep(chain, defaultStart, begun, Fails(p)) == st
  {
    var start := StartLedger(st.tables.checkpoint, defaultStart);
    forall e | e in Window(chain, start, tip) ensures e.ledger >= start {
      WindowInRange(chain, start, tip, e);
    }
    assert st.read[p := start - 1] - {p} == st.read;
  }
}
