/**
  The dead-letter queue: what `deadLetterEvent` of `indexer/src/event-router.ts` stores, what
  `reconstructEvent` of `indexer/src/deadLetter.ts` makes of it, and the reprocessing of rows in batches.
 */
module DeadLetter {
  import opened Schemas
  import opened Sequences
  import opened Wrappers

  datatype Index = NoIndex | NumIndex(n: Number) | BigIndex(i: int)

  datatype Event = Event(topics: seq<Js>, data: Js, ledger: int, txHash: string, eventIndex: Index)

  datatype Row = Row(createdAt: int, ledgerSeq: int, txHash: string, raw: Js, attempts: nat, resolved: bool)

  // ----- storing and rebuilding an event -----

  function IndexValue(x: Index): Js {
    match x case NoIndex => Undefined case NumIndex(n) => Num(n) case BigIndex(i) => Big(i)
  }

  function EventValue(e: Event): Js {
    Obj(map[TopicsField := Arr(e.topics), DataField := e.data, LedgerField := Num(Finite(e.ledger as real)),
            TxHashField := Str(e.txHash), EventIndexField := IndexValue(e.eventIndex)])
  }

  function NewRow(e: Event, now: int): Row { Row(now, e.ledger, e.txHash, Json(EventValue(e)), 0, false) }

  /** `raw[key]`; a property of null throws, and other values that are not objects have none of these. */
  function Property(raw: Js, key: Field): Js { if raw.Obj? then Get(raw.fields, key) else Undefined }

  /** `reconstructEvent`; `None` is its exception. */
  function Reconstruct(row: Row): Option<Event> {
    if Nullish(row.raw) then None
    else
      var topics, data := Property(row.raw, TopicsField), Property(row.raw, DataField);
      var ledger, index := Property(row.raw, LedgerField), Property(row.raw, EventIndexField);
      var hash, snake := Property(row.raw, TxHashField), Property(row.raw, SnakeTxHashField);
      Some(Event(
        if topics.Arr? then topics.items else [],
        if !data.Undefined? then data else row.raw,
        if ledger.Num? && ledger.n.Finite? then ledger.n.value.Floor else row.ledgerSeq,
        if hash.Str? then hash.s else if snake.Str? then snake.s else row.txHash,
        match index case Num(n) => NumIndex(n) case Big(i) => BigIndex(i) case _ => NoIndex))
  }

  function Restored(e: Event, now: int): Event
  {
    RestoreSucceeds(e, now);
    Reconstruct(NewRow(e, now)).value
  }

  lemma RestoreSucceeds(e: Event, now: int)
    ensures Reconstruct(NewRow(e, now)).Some?
  {
  }

  /** A payload that its schema accepts is accepted with an equal result on replay. */
  lemma ReplayIsFaithful(c: Conversions, kind: Kind, e: Event, now: int)
    requires Coherent(c) && Parse(c, kind, e.data).Some?
    ensures Parse(c, kind, Restored(e, now).data) == Parse(c, kind, e.data)
  {
    AcceptedSurvivesJson(c, kind, e.data);
    RestoredParts(e, now);
  }

  lemma RestoredParts(e: Event, now: int)
    ensures var r := Restored(e, now);
            && (!e.data.Undefined? ==> r.data == Json(e.data))
            && r.ledger == e.ledger && r.txHash == e.txHash
            && |r.topics| == |e.topics|
            && r.eventIndex == match e.eventIndex case NumIndex(n) => (if n.Finite? then e.eventIndex else NoIndex) case _ => NoIndex
  {
    var m := EventValue(e).fields;
    assert (e.ledger as real).Floor == e.ledger;
    JsonAt(m, LedgerField);
    JsonAt(m, TxHashField);
    JsonAt(m, TopicsField);
    JsonAt(m, DataField);
    JsonAt(m, EventIndexField);
  }

  lemma JsonAt(m: map<Field, Js>, key: Field)
    ensures Get(Json(Obj(m)).fields, key) == Json(Get(m, key))
  {
  }

  /** The event index the handlers write: `eventIndex ?? 0`. */
  function DbIndex(x: Index): Number {
    match x case NoIndex => Finite(0.0) case NumIndex(n) => n case BigIndex(i) => Finite(i as real)
  }

  /** The replayed event has the identity of the stored one, (transaction, index), exactly when its index
      was not a nonzero bigint and not a number that JSON cannot carry: a bigint is stored as a string,
      which `reconstructEvent` does not read, and the index becomes 0. */
  lemma IdentityKeptIff(e: Event, now: int)
    ensures var r := Restored(e, now);
            (r.txHash == e.txHash && DbIndex(r.eventIndex) == DbIndex(e.eventIndex)) <==>
              match e.eventIndex
              case NoIndex => true
              case NumIndex(n) => n.Finite?
              case BigIndex(i) => i == 0
  {
    RestoredParts(e, now);
  }

  // ----- the table -----

  datatype Table = Table(rows: map<nat, Row>, nextId: nat)

  /** How a replay ends: `writeEventToDb` handles the event, refuses it and stores a new row (or fails to,
      silently), or throws; or the process dies after the attempt is counted and before the row is marked,
      with or without a new row stored. */
  datatype Replay = Handled | Refused(stored: bool) | Thrown | Died(stored: bool)

  predicate Fresh(t: Table) { forall id | id in t.rows :: id < t.nextId }

  function Insert(t: Table, row: Row): Table { Table(t.rows[t.nextId := row], t.nextId + 1) }

  function Attempt(t: Table, id: nat): Table {
    if id in t.rows then t.(rows := t.rows[id := t.rows[id].(attempts := t.rows[id].attempts + 1)]) else t
  }

  function Resolve(t: Table, id: nat): Table {
    if id in t.rows then t.(rows := t.rows[id := t.rows[id].(resolved := true)]) else t
  }

  /** Whether a replay of the row counts as resolved. */
  predicate Succeeds(row: Row, replay: Replay) { Reconstruct(row).Some? && (replay.Handled? || replay.Refused?) }

  predicate StoresRow(row: Row, replay: Replay) {
    Reconstruct(row).Some? && (replay == Refused(true) || replay == Died(true))
  }

  /** `reprocessDeadLetterEvent` of a listed row. */
  function Reprocess(t: Table, id: nat, row: Row, replay: Replay, now: int): Table {
    var u := Attempt(t, id);
    var v := if StoresRow(row, replay) then Insert(u, NewRow(Reconstruct(row).value, now)) else u;
    if Succeeds(row, replay) then Resolve(v, id) else v
  }

  predicate Pending(row: Row, maxAttempts: int) { !row.resolved && row.attempts < maxAttempts }

  /** The answer of `listUnresolvedDeadLetterEvents`: distinct pending rows, oldest first, none left out
      but for the limit, and none left out older than one listed. */
  ghost predicate Lists(t: Table, ids: seq<nat>, limit: nat, maxAttempts: int) {
    && |ids| <= limit
    && (forall i, j | 0 <= i < j < |ids| :: ids[i] != ids[j])
    && (forall i | 0 <= i < |ids| :: ids[i] in t.rows && Pending(t.rows[ids[i]], maxAttempts))
    && (forall i, j | 0 <= i < j < |ids| :: t.rows[ids[i]].createdAt <= t.rows[ids[j]].createdAt)
    && (forall id | id in t.rows && Pending(t.rows[id], maxAttempts) && id !in ids ::
          |ids| == limit && forall i | 0 <= i < |ids| :: t.rows[ids[i]].createdAt <= t.rows[id].createdAt)
  }

  /** The rows of a batch, one after the other; `listed` is the table they were listed from. */
  function Batch(t: Table, listed: Table, ids: seq<nat>, replays: seq<Replay>, now: int): Table
    requires |replays| == |ids| && forall id | id in ids :: id in listed.rows
  {
    if ids == [] then t
    else
      Reprocess(Batch(t, listed, Front(ids), Front(replays), now), Last(ids), listed.rows[Last(ids)], Last(replays), now)
  }

  function Successes(listed: Table, ids: seq<nat>, replays: seq<Replay>): nat
    requires |replays| == |ids| && forall id | id in ids :: id in listed.rows
  {
    if ids == [] then 0
    else
      Successes(listed, Front(ids), Front(replays)) + if Succeeds(listed.rows[Last(ids)], Last(replays)) then 1 else 0
  }

  class DeadLetterQueue {
    var table: Table

    constructor ()
      ensures table == Table(map[], 0)
    {
      table := Table(map[], 0);
    }

    /** `deadLetterEvent`; a failed insert is swallowed. */
    method DeadLetterEvent(e: Event, now: int, fails: bool)
      modifies this
      ensures table == if fails then old(table) else Insert(old(table), NewRow(e, now))
    {
      if !fails {
        table := Insert(table, NewRow(e, now));
      }
    }

    /** `recordAttempt` */
    method RecordAttempt(id: nat) returns (attempts: nat)
      modifies this
      ensures table == Attempt(old(table), id)
      ensures attempts == if id in table.rows then table.rows[id].attempts else 1
    {
      table := Attempt(table, id);
      return if id in table.rows then table.rows[id].attempts else 1;
    }

    /** `reprocessDeadLetterEvent` */
    method ReprocessDeadLetterEvent(id: nat, row: Row, replay: Replay, now: int) returns (resolved: bool, attempt: nat)
      requires !replay.Died?
      modifies this
      ensures table == Reprocess(old(table), id, row, replay, now)
      ensures resolved == Succeeds(row, replay)
      ensures id in old(table.rows) ==> attempt == old(table.rows[id].attempts) + 1
    {
      var event := Reconstruct(row);
      attempt := RecordAttempt(id);
      if event.None? || replay.Thrown? {
        return false, attempt;
      }
      if replay == Refused(true) {
        table := Insert(table, NewRow(event.value, now));
      }
      table := Resolve(table, id);
      return true, attempt;
    }

    /** `reprocessDeadLetterBatch`, for the rows the query listed, when it runs to its end. */
    method ReprocessDeadLetterBatch(ids: seq<nat>, limit: nat, maxAttempts: int, replays: seq<Replay>, now: int)
      returns (total: nat, resolved: nat, failed: nat)
      requires Lists(table, ids, limit, maxAttempts) && |replays| == |ids| && forall r | r in replays :: !r.Died?
      modifies this
      ensures table == Batch(old(table), old(table), ids, replays, now)
      ensures total == |ids| && resolved == Successes(old(table), ids, replays) && resolved + failed == total
    {
      ghost var before := table;
      var listed := table;
      resolved, failed := 0, 0;
      assert forall id | id in ids :: id in listed.rows;
      for i := 0 to |ids|
        invariant resolved + failed == i
        invariant table == Batch(before, listed, ids[..i], replays[..i], now)
        invariant resolved == Successes(listed, ids[..i], replays[..i])
      {
        OneMoreRow(before, listed, ids, replays, i, now);
        var done, _ := ReprocessDeadLetterEvent(ids[i], listed.rows[ids[i]], replays[i], now);
        if done {
          resolved := resolved + 1;
        } else {
          failed := failed + 1;
        }
      }
      assert ids[..|ids|] == ids && replays[..|ids|] == replays;
      total := |ids|;
    }
  }

  lemma OneMoreRow(t: Table, listed: Table, ids: seq<nat>, replays: seq<Replay>, i: nat, now: int)
    requires |replays| == |ids| && i < |ids| && forall id | id in ids :: id in listed.rows
    ensures ids[i] in listed.rows
    ensures Batch(t, listed, ids[..i + 1], replays[..i + 1], now)
         == Reprocess(Batch(t, listed, ids[..i], replays[..i], now), ids[i], listed.rows[ids[i]], replays[i], now)
    ensures Successes(listed, ids[..i + 1], replays[..i + 1])
         == Successes(listed, ids[..i], replays[..i]) + if Succeeds(listed.rows[ids[i]], replays[i]) then 1 else 0
  {
    assert Front(ids[..i + 1]) == ids[..i] && Front(replays[..i + 1]) == replays[..i];
  }

  // ----- what a batch does to each row -----

  predicate Distinct(ids: seq<nat>) { forall i, j | 0 <= i < j < |ids| :: ids[i] != ids[j] }

  /** A listed row gets exactly one attempt and is resolved exactly if its replay succeeded, a row that was
      not listed is untouched, and the rows that are new have no attempts. */
  ghost predicate BatchEffect(t: Table, u: Table, ids: seq<nat>, replays: seq<Replay>)
    requires |replays| == |ids|
  {
    && Fresh(u) && t.nextId <= u.nextId
    && (forall id | id in t.rows :: id in u.rows)
    && (forall id | id in t.rows && id !in ids :: u.rows[id] == t.rows[id])
    && (forall i | 0 <= i < |ids| && ids[i] in t.rows && ids[i] in u.rows ::
          var was := t.rows[ids[i]];
          u.rows[ids[i]] == was.(attempts := was.attempts + 1,
                                 resolved := was.resolved || (Reconstruct(was).Some? && (replays[i].Handled? || replays[i].Refused?))))
    && (forall id | id in u.rows && id !in t.rows :: t.nextId <= id && u.rows[id].attempts == 0 && !u.rows[id].resolved)
  }

  lemma {:induction false} BatchStep(t: Table, ids: seq<nat>, replays: seq<Replay>, now: int)
    requires Fresh(t) && |replays| == |ids| && Distinct(ids) && forall id | id in ids :: id in t.rows
    ensures BatchEffect(t, Batch(t, t, ids, replays, now), ids, replays)
  {
    if ids != [] {
      var init, id := Front(ids), Last(ids);
      assert forall x | x in init :: x in ids;
      BatchStep(t, init, Front(replays), now);
      assert id !in init;
      RowStep(t, Batch(t, t, init, Front(replays), now), ids, replays, now);
    }
  }

  lemma ReprocessEffect(u: Table, id: nat, row: Row, replay: Replay, now: int)
    requires Fresh(u) && id in u.rows
    ensures var v, was := Reprocess(u, id, row, replay, now), u.rows[id];
            && Fresh(v) && u.nextId <= v.nextId && id in v.rows
            && v.rows[id] == was.(attempts := was.attempts + 1, resolved := was.resolved || Succeeds(row, replay))
            && (forall x | x in u.rows && x != id :: x in v.rows && v.rows[x] == u.rows[x])
            && (forall x | x in v.rows && x !in u.rows :: x == u.nextId && v.rows[x].attempts == 0 && !v.rows[x].resolved)
  {
  }

  lemma RowStep(t: Table, u: Table, ids: seq<nat>, replays: seq<Replay>, now: int)
    requires Fresh(t) && |replays| == |ids| > 0 && Distinct(ids) && (forall id | id in ids :: id in t.rows)
    requires Last(ids) !in Front(ids)
    requires BatchEffect(t, u, Front(ids), Front(replays))
    ensures BatchEffect(t, Reprocess(u, Last(ids), t.rows[Last(ids)], Last(replays), now), ids, replays)
  {
    var id := Last(ids);
    assert id in ids && id in t.rows && u.rows[id] == t.rows[id];
    assert forall x | x in ids :: x in Front(ids) || x == id;
    assert forall x | x in Front(ids) :: x in ids;
    var v := Reprocess(u, id, t.rows[id], Last(replays), now);
    ReprocessEffect(u, id, t.rows[id], Last(replays), now);
    forall i | 0 <= i < |ids|
      ensures var was := t.rows[ids[i]];
              v.rows[ids[i]] == was.(attempts := was.attempts + 1, resolved := was.resolved || Succeeds(was, replays[i]))
    {
      if i < |ids| - 1 {
        assert Front(ids)[i] == ids[i] && Front(replays)[i] == replays[i] && ids[i] != id;
      }
    }
  }

  /** How many refused events a batch has stored again, and how many rows it has resolved. */
  function StoredAgain(t: Table, ids: seq<nat>, replays: seq<Replay>): nat
    requires |replays| == |ids| && forall id | id in ids :: id in t.rows
  {
    if ids == [] then 0
    else
      var stores := Reconstruct(t.rows[Last(ids)]).Some? && (Last(replays) == Refused(true) || Last(replays) == Died(true));
      StoredAgain(t, Front(ids), Front(replays)) + if stores then 1 else 0
  }

  function ResolvedRows(t: Table, ids: seq<nat>, replays: seq<Replay>): nat
    requires |replays| == |ids| && forall id | id in ids :: id in t.rows
  {
    if ids == [] then 0
    else
      var resolves := Reconstruct(t.rows[Last(ids)]).Some? && (Last(replays).Handled? || Last(replays).Refused?);
      ResolvedRows(t, Front(ids), Front(replays)) + if resolves then 1 else 0
  }

  lemma ReprocessRows(u: Table, id: nat, row: Row, replay: Replay, now: int)
    requires Fresh(u) && id in u.rows
    ensures var stores := Reconstruct(row).Some? && (replay == Refused(true) || replay == Died(true));
            |Reprocess(u, id, row, replay, now).rows| == |u.rows| + if stores then 1 else 0
  {
    var v := Reprocess(u, id, row, replay, now);
    assert u.nextId !in u.rows;
    assert v.rows.Keys == u.rows.Keys || v.rows.Keys == u.rows.Keys + {u.nextId};
    assert |v.rows| == |v.rows.Keys| && |u.rows| == |u.rows.Keys|;
  }

  /** A batch adds one row for each refused event it has stored again, and its summary counts the rows it
      has resolved. */
  lemma {:induction false} BatchCounts(t: Table, ids: seq<nat>, replays: seq<Replay>, now: int)
    requires Fresh(t) && |replays| == |ids| && Distinct(ids) && forall id | id in ids :: id in t.rows
    ensures |Batch(t, t, ids, replays, now).rows| == |t.rows| + StoredAgain(t, ids, replays)
    ensures Successes(t, ids, replays) == ResolvedRows(t, ids, replays)
  {
    if ids != [] {
      assert forall x | x in Front(ids) :: x in ids;
      BatchCounts(t, Front(ids), Front(replays), now);
      BatchStep(t, Front(ids), Front(replays), now);
      assert Last(ids) in ids;
      ReprocessRows(Batch(t, t, Front(ids), Front(replays), now), Last(ids), t.rows[Last(ids)], Last(replays), now);
    }
  }

  // ----- listings -----

  ghost function PendingIds(t: Table, maxAttempts: int): set<nat> { set id | id in t.rows && Pending(t.rows[id], maxAttempts) }

  predicate IsOldest(t: Table, s: set<nat>, id: nat) {
    id in s && id in t.rows && forall x | x in s && x in t.rows :: t.rows[id].createdAt <= t.rows[x].createdAt
  }

  lemma {:induction false} Oldest(t: Table, s: set<nat>) returns (id: nat)
    requires s != {} && forall x | x in s :: x in t.rows
    ensures IsOldest(t, s, id)
  {
    var first :| first in s;
    var others := s - {first};
    if others == {} {
      id := first;
      forall x | x in s ensures x == first {
        assert x !in others;
      }
    } else {
      var other := Oldest(t, others);
      id := if t.rows[other].createdAt < t.rows[first].createdAt then other else first;
      assert forall x | x in s :: x == first || x in others;
    }
  }

  /** A listing of the oldest among some rows. */
  ghost predicate ListsOf(t: Table, s: set<nat>, ids: seq<nat>, limit: nat) {
    && |ids| <= limit && Distinct(ids) && (forall i | 0 <= i < |ids| :: ids[i] in s && ids[i] in t.rows)
    && (forall i, j | 0 <= i < j < |ids| :: t.rows[ids[i]].createdAt <= t.rows[ids[j]].createdAt)
    && (forall id | id in s && id in t.rows && id !in ids ::
          |ids| == limit && forall i | 0 <= i < |ids| :: t.rows[ids[i]].createdAt <= t.rows[id].createdAt)
  }

  lemma OldestThenRest(t: Table, s: set<nat>, id: nat, rest: seq<nat>, limit: nat)
    requires IsOldest(t, s, id) && ListsOf(t, s - {id}, rest, limit)
    ensures ListsOf(t, s, [id] + rest, limit + 1)
  {
    var ids := [id] + rest;
    assert forall i | 0 < i < |ids| :: ids[i] == rest[i - 1];
    forall x | x in s && x in t.rows && x !in ids
      ensures |ids| == limit + 1 && forall i | 0 <= i < |ids| :: t.rows[ids[i]].createdAt <= t.rows[x].createdAt
    {
      assert ids[0] == id && forall y | y in rest :: y in ids;
    }
  }

  lemma {:induction false} OldestFirst(t: Table, s: set<nat>, limit: nat) returns (ids: seq<nat>)
    requires forall x | x in s :: x in t.rows
    ensures ListsOf(t, s, ids, limit)
  {
    ids := [];
    if limit > 0 && s != {} {
      var id := Oldest(t, s);
      var rest := OldestFirst(t, s - {id}, limit - 1);
      OldestThenRest(t, s, id, rest, limit - 1);
      ids := [id] + rest;
    }
  }

  /** For every table there is a listing, of every limit... */
  lemma ListingExists(t: Table, limit: nat, maxAttempts: int) returns (ids: seq<nat>)
    ensures Lists(t, ids, limit, maxAttempts)
  {
    ids := OldestFirst(t, PendingIds(t, maxAttempts), limit);
  }

  ghost function Members(ids: seq<nat>): set<nat> { if ids == [] then {} else Members(Front(ids)) + {Last(ids)} }

  lemma {:induction false} MembersAre(ids: seq<nat>)
    ensures forall id :: id in Members(ids) <==> id in ids
    ensures Distinct(ids) ==> |Members(ids)| == |ids|
  {
    if ids != [] {
      MembersAre(Front(ids));
      assert ids == Front(ids) + [Last(ids)];
    }
  }

  lemma Subset(a: set<nat>, b: set<nat>)
    requires a <= b
    ensures |a| <= |b|
  {
    assert b == a + (b - a);
  }

  /** ...and it has as many pending rows as there are, up to the limit. */
  lemma ListingSize(t: Table, ids: seq<nat>, limit: nat, maxAttempts: int)
    requires Lists(t, ids, limit, maxAttempts)
    ensures |ids| == if |PendingIds(t, maxAttempts)| < limit then |PendingIds(t, maxAttempts)| else limit
  {
    var pending := PendingIds(t, maxAttempts);
    MembersAre(ids);
    forall id | id in Members(ids) ensures id in pending {
      var i :| 0 <= i < |ids| && ids[i] == id;
    }
    Subset(Members(ids), pending);
    if |ids| < limit {
      forall id | id in pending ensures id in Members(ids) {
      }
      assert Members(ids) == pending;
    }
  }

  /** The pending rows older than a row. */
  ghost function Older(t: Table, id: nat, maxAttempts: int): set<nat>
    requires id in t.rows
  {
    set x | x in t.rows && Pending(t.rows[x], maxAttempts) && t.rows[x].createdAt < t.rows[id].createdAt
  }

  ghost predicate StampsDiffer(t: Table, maxAttempts: int) {
    forall x, y | x in PendingIds(t, maxAttempts) && y in PendingIds(t, maxAttempts) && x != y ::
      t.rows[x].createdAt != t.rows[y].createdAt
  }

  lemma OlderAreBefore(t: Table, ids: seq<nat>, i: nat, limit: nat, maxAttempts: int)
    requires Lists(t, ids, limit, maxAttempts) && StampsDiffer(t, maxAttempts) && i < |ids|
    ensures ids[i] in t.rows && Older(t, ids[i], maxAttempts) == Members(ids[..i])
  {
    MembersAre(ids[..i]);
    var id := ids[i];
    forall x ensures x in Older(t, id, maxAttempts) <==> x in ids[..i] {
      if x in ids[..i] {
        var j :| 0 <= j < i && ids[j] == x;
        assert x in PendingIds(t, maxAttempts) && id in PendingIds(t, maxAttempts);
      }
    }
  }

  /** Where no two pending rows are of the same time, a pending row is listed if and only if fewer than
      `limit` are older, at the place that their number says. */
  lemma ListedAtIff(t: Table, ids: seq<nat>, id: nat, limit: nat, maxAttempts: int)
    requires Lists(t, ids, limit, maxAttempts) && StampsDiffer(t, maxAttempts) && id in PendingIds(t, maxAttempts)
    ensures id in ids <==> |Older(t, id, maxAttempts)| < limit
    ensures id in ids ==> var k := |Older(t, id, maxAttempts)|; k < |ids| && ids[k] == id
  {
    if id in ids {
      var i :| 0 <= i < |ids| && ids[i] == id;
      OlderAreBefore(t, ids, i, limit, maxAttempts);
      MembersAre(ids[..i]);
    } else {
      MembersAre(ids);
      forall x | x in Members(ids) ensures x in Older(t, id, maxAttempts) {
        var i :| 0 <= i < |ids| && ids[i] == x;
        assert x in PendingIds(t, maxAttempts);
      }
      Subset(Members(ids), Older(t, id, maxAttempts));
    }
  }

  // ----- sequential batches -----

  /** A batch lists `ids` and gets as far as its replays: the process may die at any row. */
  datatype Step =
    | Arrive(event: Event, now: int)
    | RunBatch(ids: seq<nat>, limit: nat, maxAttempts: int, replays: seq<Replay>, now: int)

  ghost predicate Enabled(t: Table, s: Step) {
    s.RunBatch? ==> |s.replays| <= |s.ids| && Lists(t, s.ids, s.limit, s.maxAttempts)
  }

  /** The rows that a batch got to. */
  function Tried(s: Step): seq<nat>
    requires s.RunBatch?
  {
    if |s.replays| <= |s.ids| then s.ids[..|s.replays|] else []
  }

  function Next(t: Table, s: Step): Table {
    match s
    case Arrive(e, now) => Insert(t, NewRow(e, now))
    case RunBatch(_, _, _, replays, now) =>
      if |replays| == |Tried(s)| && forall id | id in Tried(s) :: id in t.rows then Batch(t, t, Tried(s), replays, now) else t
  }

  ghost predicate IsRun(t: Table, steps: seq<Step>)
    decreases |steps|, 0
  {
    steps == [] || (IsRun(t, Front(steps)) && Enabled(Final(t, Front(steps)), Last(steps)))
  }

  function Final(t: Table, steps: seq<Step>): Table
    decreases |steps|, 1
  {
    if steps == [] then t else Next(Final(t, Front(steps)), Last(steps))
  }

  /** How many batches of the run got to the row. */
  function Tries(steps: seq<Step>, id: nat): nat {
    if steps == [] then 0
    else Tries(Front(steps), id) + if Last(steps).RunBatch? && id in Tried(Last(steps)) then 1 else 0
  }

  function Max(a: int, b: int): int { if a < b then b else a }

  function AttemptsAt(t: Table, id: nat): nat { if id in t.rows then t.rows[id].attempts else 0 }

  lemma TriedArePending(t: Table, s: Step)
    requires s.RunBatch? && Enabled(t, s)
    ensures |Tried(s)| == |s.replays| && Distinct(Tried(s))
    ensures forall id | id in Tried(s) :: id in t.rows && Pending(t.rows[id], s.maxAttempts)
  {
    var ids := Tried(s);
    assert forall i | 0 <= i < |ids| :: ids[i] == s.ids[i];
    forall id | id in ids ensures id in t.rows && Pending(t.rows[id], s.maxAttempts) {
      var i :| 0 <= i < |ids| && ids[i] == id;
    }
  }

  lemma StepEffect(t: Table, s: Step, cap: int)
    requires Fresh(t) && Enabled(t, s) && (s.RunBatch? ==> s.maxAttempts <= cap)
    ensures var u := Next(t, s);
            && Fresh(u)
            && (forall id | id in t.rows :: id in u.rows && (t.rows[id].resolved ==> u.rows[id].resolved))
            && (forall id :: AttemptsAt(u, id) == AttemptsAt(t, id) + if s.RunBatch? && id in Tried(s) then 1 else 0)
            && (forall id :: AttemptsAt(u, id) <= Max(cap, AttemptsAt(t, id)))
  {
    if s.RunBatch? {
      TriedArePending(t, s);
      BatchStep(t, Tried(s), s.replays, s.now);
      var ids, u := Tried(s), Next(t, s);
      forall id | id in ids ensures AttemptsAt(u, id) == AttemptsAt(t, id) + 1 {
        var i :| 0 <= i < |ids| && ids[i] == id;
      }
    }
  }

  /** Over any run of arrivals and sequential batches, cut short or not: a row has been tried exactly once
      per batch that got to it, no row's attempts pass the cap of the batches (or what they started
      from), and a resolved row stays resolved. */
  lemma {:induction false} AttemptsAreCapped(t: Table, steps: seq<Step>, cap: int, id: nat)
    requires Fresh(t) && IsRun(t, steps)
    requires forall s | s in steps && s.RunBatch? :: s.maxAttempts <= cap
    ensures Fresh(Final(t, steps))
    ensures AttemptsAt(Final(t, steps), id) == AttemptsAt(t, id) + Tries(steps, id)
    ensures AttemptsAt(Final(t, steps), id) <= Max(cap, AttemptsAt(t, id))
    ensures id in t.rows ==> id in Final(t, steps).rows
    ensures id in t.rows && t.rows[id].resolved ==> Final(t, steps).rows[id].resolved
    decreases |steps|
  {
    if steps != [] {
      var init := Front(steps);
      assert forall s | s in init :: s in steps;
      AttemptsAreCapped(t, init, cap, id);
      assert Last(steps) in steps;
      StepEffect(Final(t, init), Last(steps), cap);
    }
  }

  /** A row that is resolved, or has reached the cap, is tried by no later batch. */
  lemma {:induction false} SettledRowsAreLeftAlone(t: Table, steps: seq<Step>, cap: int, id: nat)
    requires Fresh(t) && IsRun(t, steps)
    requires forall s | s in steps && s.RunBatch? :: s.maxAttempts <= cap
    requires id in t.rows && (t.rows[id].resolved || t.rows[id].attempts >= cap)
    ensures Tries(steps, id) == 0
    decreases |steps|
  {
    if steps != [] {
      var init, s := Front(steps), Last(steps);
      assert forall x | x in init :: x in steps;
      SettledRowsAreLeftAlone(t, init, cap, id);
      AttemptsAreCapped(t, init, cap, id);
      assert s in steps;
    }
  }

  // ----- overlapping batches -----

  /** A batch that listed its rows from a table that others have changed since. */
  datatype Listing = Listing(ids: seq<nat>, limit: nat, replays: seq<Replay>, now: int)

  /** The batch listed its rows from `t`, and got to all of them. */
  ghost predicate ListedFrom(t: Table, b: Listing, cap: int) {
    |b.replays| == |b.ids| && Lists(t, b.ids, b.limit, cap)
  }

  ghost predicate AllListedFrom(t: Table, bs: seq<Listing>, cap: int) { forall b | b in bs :: ListedFrom(t, b, cap) }

  /** Overlapping batches: all of them listed from `t` before any of them wrote. */
  ghost function Overlap(t: Table, bs: seq<Listing>, cap: int): Table
    requires AllListedFrom(t, bs, cap)
  {
    if bs == [] then t
    else
      assert Last(bs) in bs && forall b | b in Front(bs) :: b in bs;
      ListedIds(t, Last(bs), cap);
      Batch(Overlap(t, Front(bs), cap), t, Last(bs).ids, Last(bs).replays, Last(bs).now)
  }

  lemma ListedIds(t: Table, b: Listing, cap: int)
    requires ListedFrom(t, b, cap)
    ensures Distinct(b.ids) && forall id | id in b.ids :: id in t.rows && Pending(t.rows[id], cap)
  {
    forall id | id in b.ids ensures id in t.rows && Pending(t.rows[id], cap) {
      var i :| 0 <= i < |b.ids| && b.ids[i] == id;
    }
  }

  function ListingsOf(bs: seq<Listing>, id: nat): nat {
    if bs == [] then 0 else ListingsOf(Front(bs), id) + if id in Last(bs).ids then 1 else 0
  }

  /** A batch adds one to the attempts of each row it tries, whatever the table has become. */
  lemma {:induction false} BatchAttempts(u: Table, t: Table, ids: seq<nat>, replays: seq<Replay>, now: int, id: nat)
    requires Fresh(u) && |replays| == |ids| && Distinct(ids) && forall x | x in ids :: x in t.rows && x in u.rows
    ensures var v := Batch(u, t, ids, replays, now);
            && Fresh(v) && (forall x | x in u.rows :: x in v.rows)
            && AttemptsAt(v, id) == AttemptsAt(u, id) + if id in ids then 1 else 0
  {
    if ids != [] {
      var init, x := Front(ids), Last(ids);
      assert x in ids && forall y | y in init :: y in ids;
      assert forall y :: y in ids <==> y in init || y == x;
      BatchAttempts(u, t, init, Front(replays), now, id);
      ReprocessEffect(Batch(u, t, init, Front(replays), now), x, t.rows[x], Last(replays), now);
    }
  }

  /** Overlapping batches are another matter: a row with a attempts that k of them listed is left with
      a + k... */
  lemma {:induction false} OverlapAddsUp(t: Table, bs: seq<Listing>, cap: int, id: nat)
    requires Fresh(t) && AllListedFrom(t, bs, cap)
    ensures var u := Overlap(t, bs, cap);
            && Fresh(u) && (forall x | x in t.rows :: x in u.rows)
            && AttemptsAt(u, id) == AttemptsAt(t, id) + ListingsOf(bs, id)
  {
    if bs != [] {
      var b := Last(bs);
      assert b in bs && forall c | c in Front(bs) :: c in bs;
      OverlapAddsUp(t, Front(bs), cap, id);
      ListedIds(t, b, cap);
      BatchAttempts(Overlap(t, Front(bs), cap), t, b.ids, b.replays, b.now, id);
    }
  }

  /** ...so it passes the cap if and only if more batches overlap on it than it had tries left. */
  lemma OverlapPassesTheCapIff(t: Table, bs: seq<Listing>, cap: int, id: nat)
    requires Fresh(t) && AllListedFrom(t, bs, cap) && id in t.rows
    ensures AttemptsAt(Overlap(t, bs, cap), id) > cap <==> ListingsOf(bs, id) > cap - t.rows[id].attempts
  {
    OverlapAddsUp(t, bs, cap, id);
  }

  /** Two batches that overlap on a row one try short of the cap leave it one past the cap. */
  lemma OverlappingBatchesPassTheCap(t: Table, id: nat, cap: int, b: Listing, c: Listing)
    requires Fresh(t) && AllListedFrom(t, [b, c], cap) && id in b.ids && id in c.ids
    requires id in t.rows && t.rows[id].attempts == cap - 1
    ensures AttemptsAt(Overlap(t, [b, c], cap), id) == cap + 1
  {
    OverlapAddsUp(t, [b, c], cap, id);
    assert Front([b, c]) == [b] && Last([b, c]) == c && Front([b]) == [] && Last([b]) == b;
    assert ListingsOf([b], id) == 1 && ListingsOf([b, c], id) == 2;
  }
}
