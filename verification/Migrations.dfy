/**
  The migration runner of `db/migrate.ts`: any number of concurrent runners, each of which may be a dry
  run, wait for the advisory lock, crash, or lose the answer to a statement, over one database.

  `applyMigration` wraps a file in BEGIN and COMMIT, but many files in `db/migrations` end with a COMMIT of
  their own. That one ends the runner's transaction: the file's DDL is durable before its row is inserted,
  and the row is inserted on its own. The model calls the time in between the gap.
 */
module Migrations {
  import opened Sequences
  import opened Wrappers

  type Id = nat

  /** An accepted migration file: `redundant` when REDUNDANT_MIGRATIONS names it, `selfCommits` when its
      text commits the transaction it runs in. */
  datatype File = File(name: string, checksum: string, redundant: bool, selfCommits: bool)

  /** The `schema_migrations` table: checksums are NULL in rows that predate the column. */
  type Rows = map<string, Option<string>>

  datatype Options = Options(allowChecksumUpdate: bool, dryRun: bool)

  /** What the loop body does with one file, given the row it read. */
  datatype Action = Skip | Record | Mismatch | Apply | Announce

  function Decide(file: File, row: Option<Option<string>>, o: Options): Action {
    match row
    case Some(None) => if o.dryRun then Skip else Record
    case Some(Some(checksum)) =>
      if checksum == file.checksum then Skip
      else if !o.allowChecksumUpdate then Mismatch
      else if o.dryRun then Skip else Record
    case None => if file.redundant then Skip else if o.dryRun then Announce else Apply
  }

  function Lookup(rows: Rows, name: string): Option<Option<string>> {
    if name in rows then Some(rows[name]) else None
  }

  // ----- one runner on its own -----

  /** The bookkeeping and the deployed schema: `ddl` lists the files whose SQL has committed, in order. */
  datatype Db = Db(rows: Rows, ddl: seq<string>)

  function Perform(db: Db, file: File, action: Action): Db {
    match action
    case Record => db.(rows := db.rows[file.name := Some(file.checksum)])
    case Apply => Db(db.rows[file.name := Some(file.checksum)], db.ddl + [file.name])
    case _ => db
  }

  /** The statement of `applyMigration` that fails, or whose answer is lost: the file's own text, before or
      after a COMMIT in it, the INSERT, or the COMMIT, before or after it took effect. */
  datatype Fault = NoFault | AtSql(committed: bool) | AtInsert | AtCommit(applied: bool)

  class Client {
    var db: Db

    constructor (db: Db)
      ensures this.db == db
    {
      this.db := db;
    }

    /** `applyMigration`. A file that does not commit itself is applied and recorded together or not at
        all; one that does can be left applied but not recorded, by exactly the faults between its own
        COMMIT and the INSERT. */
    method ApplyMigration(file: File, fault: Fault) returns (ok: bool)
      modifies this
      ensures ok <==> fault == NoFault
      ensures var both := Perform(old(db), file, Apply);
              if ok || fault == AtCommit(true) || (file.selfCommits && fault == AtCommit(false)) then db == both
              else if file.selfCommits && fault in {AtSql(true), AtInsert} then db == old(db).(ddl := both.ddl)
              else db == old(db)
    {
      var draft := Some(db);                                     // BEGIN
      if fault != AtSql(false) {
        draft := Some(db.(ddl := db.ddl + [file.name]));         // the file's text
        if file.selfCommits {
          db, draft := draft.value, None;
        } else if fault.AtSql? {
          draft := None;
        }
      }
      if fault.AtSql? {
        return false;                                            // ROLLBACK
      }
      if fault == AtInsert {
        return false;
      }
      if draft.Some? {
        draft := Some(draft.value.(rows := draft.value.rows[file.name := Some(file.checksum)]));
      } else {
        db := db.(rows := db.rows[file.name := Some(file.checksum)]);
      }
      if draft.Some? && fault != AtCommit(false) {
        db := draft.value;
      }
      return !fault.AtCommit?;
    }

    /** The loop of `runMigrations` with nobody else around: it succeeds exactly when no applied file
        has drifted (or drift is allowed), and stops at the first file that has. */
    method Run(files: seq<File>, o: Options) returns (ok: bool)
      requires Distinct(files)
      modifies this
      ensures ok <==> !exists i :: 0 <= i < |files| && Drifted(old(db).rows, files[i], o)
      ensures ok && !o.dryRun ==> Settled(db.rows, files, |files|)
      ensures ok && !o.dryRun ==> db.ddl == old(db).ddl + Pending(old(db).rows, files)
      ensures o.dryRun ==> db == old(db)
      ensures !ok ==> exists i :: 0 <= i < |files| && Drifted(old(db).rows, files[i], o)
                        && (!o.dryRun ==> db.ddl == old(db).ddl + Pending(old(db).rows, files[..i]))
    {
      assert files[..0] == [];
      for i := 0 to |files|
        invariant o.dryRun ==> db == old(db)
        invariant !o.dryRun ==> Settled(db.rows, files, i)
        invariant !o.dryRun ==> db.ddl == old(db).ddl + Pending(old(db).rows, files[..i])
        invariant forall j :: i <= j < |files| ==> Lookup(db.rows, files[j].name) == Lookup(old(db).rows, files[j].name)
        invariant forall j :: 0 <= j < i ==> !Drifted(old(db).rows, files[j], o)
      {
        assert Lookup(db.rows, files[i].name) == Lookup(old(db).rows, files[i].name);
        var action := Decide(files[i], Lookup(db.rows, files[i].name), o);
        if action.Mismatch? {
          assert Drifted(old(db).rows, files[i], o);
          return false;
        }
        FileDealtWith(old(db).rows, db, files, i, o);
        if action.Apply? {
          var _ := ApplyMigration(files[i], NoFault);
        } else {
          db := Perform(db, files[i], action);
        }
      }
      assert files[..|files|] == files;
      return true;
    }
  }

  /** Acting on file `i` settles it, disturbs no other row, and applies it exactly when it is pending. */
  lemma FileDealtWith(rows0: Rows, db: Db, files: seq<File>, i: nat, o: Options)
    requires Distinct(files) && i < |files|
    requires Lookup(db.rows, files[i].name) == Lookup(rows0, files[i].name)
    requires var a := Decide(files[i], Lookup(db.rows, files[i].name), o); !a.Mismatch?
    ensures var db' := Perform(db, files[i], Decide(files[i], Lookup(db.rows, files[i].name), o));
            && (forall j :: 0 <= j < |files| && j != i ==> Lookup(db'.rows, files[j].name) == Lookup(db.rows, files[j].name))
            && (o.dryRun ==> db' == db)
            && (!o.dryRun && Settled(db.rows, files, i) ==> Settled(db'.rows, files, i + 1))
            && (!o.dryRun ==> db'.ddl == db.ddl + (if files[i].redundant || files[i].name in rows0 then [] else [files[i].name]))
            && Pending(rows0, files[..i + 1])
               == Pending(rows0, files[..i]) + (if files[i].redundant || files[i].name in rows0 then [] else [files[i].name])
  {
    assert Front(files[..i + 1]) == files[..i] && Last(files[..i + 1]) == files[i];
    var db' := Perform(db, files[i], Decide(files[i], Lookup(db.rows, files[i].name), o));
    forall j | 0 <= j < |files| && j != i ensures Lookup(db'.rows, files[j].name) == Lookup(db.rows, files[j].name) {
      assert files[j].name != files[i].name;
    }
  }

  predicate Distinct(files: seq<File>) {
    forall i, j :: 0 <= i < j < |files| ==> files[i].name != files[j].name
  }

  /** An applied file whose recorded checksum differs, and whose drift is not allowed. */
  predicate Drifted(rows: Rows, file: File, o: Options) {
    file.name in rows && rows[file.name].Some? && rows[file.name].value != file.checksum && !o.allowChecksumUpdate
  }

  /** The files a run has to apply, in order. */
  function Pending(rows: Rows, files: seq<File>): seq<string> {
    if files == [] then []
    else
      var f := Last(files);
      Pending(rows, Front(files)) + if f.redundant || f.name in rows then [] else [f.name]
  }

  /** The first `n` files are dealt with: applied unless redundant, and with their own checksum on record. */
  predicate Settled(rows: Rows, files: seq<File>, n: nat) {
    forall i :: 0 <= i < |files| && i < n ==>
      && (files[i].name in rows ==> rows[files[i].name] == Some(files[i].checksum))
      && (!files[i].redundant ==> files[i].name in rows)
  }

  // ----- any number of runners -----

  datatype Phase =
    | Starting
    | Waiting                                         // blocked in pg_advisory_lock
    | At(i: nat)                                      // about to read the row of file i
    | Read(i: nat, row: Option<Option<string>>)       // has read it
    | Gap(i: nat)                                     // file i has committed itself; its row is not inserted
    | Leaving(ok: bool)                               // in the `finally`
    | Gone

  datatype Runner = Runner(o: Options, phase: Phase)

  /** `table` says whether `ensureMigrationsTable` has run. `frontier` is bookkeeping of the model: how far
      down the list real runners have got. */
  datatype State = State(db: Db, lock: Option<Id>, runners: map<Id, Runner>, frontier: nat, table: bool)

  datatype Step =
    | Start(r: Id, o: Options)
    | Enter(r: Id)              // dry run, or pg_try_advisory_lock succeeded, or the wait is over
    | Block(r: Id)              // pg_try_advisory_lock failed
    | ReadRow(r: Id)
    | Act(r: Id)                // up to the gap, for a file that commits itself
    | ActUnanswered(r: Id)      // the write took effect but its answer was lost
    | ActFails(r: Id)           // the write was rolled back
    | InsertRow(r: Id)          // out of the gap
    | InsertUnanswered(r: Id)
    | InsertFails(r: Id)
    | Finish(r: Id)             // the loop is done
    | Unlock(r: Id)
    | Crash(r: Id)              // the session dies, and with it the lock

  predicate Known(st: State, r: Id) { r in st.runners && !st.runners[r].phase.Gone? }

  predicate Enabled(files: seq<File>, st: State, step: Step) {
    match step
    case Start(r, _) => r !in st.runners
    case Enter(r) =>
      r in st.runners
      && (if st.runners[r].o.dryRun then st.runners[r].phase.Starting?
          else (st.runners[r].phase.Starting? || st.runners[r].phase.Waiting?) && st.lock == None)
    case Block(r) => r in st.runners && st.runners[r].phase.Starting? && !st.runners[r].o.dryRun && st.lock != None
    case ReadRow(r) => r in st.runners && st.runners[r].phase.At? && st.runners[r].phase.i < |files|
    case Act(r) => r in st.runners && st.runners[r].phase.Read? && st.runners[r].phase.i < |files|
    case ActUnanswered(r) => r in st.runners && st.runners[r].phase.Read? && st.runners[r].phase.i < |files|
    case ActFails(r) => r in st.runners && st.runners[r].phase.Read?
    case InsertRow(r) => r in st.runners && st.runners[r].phase.Gap? && st.runners[r].phase.i < |files|
    case InsertUnanswered(r) => r in st.runners && st.runners[r].phase.Gap? && st.runners[r].phase.i < |files|
    case InsertFails(r) => r in st.runners && st.runners[r].phase.Gap?
    case Finish(r) => r in st.runners && st.runners[r].phase.At? && st.runners[r].phase.i >= |files|
    case Unlock(r) => r in st.runners && st.runners[r].phase.Leaving?
    case Crash(r) => Known(st, r)
  }

  function Move(st: State, r: Id, phase: Phase): State
    requires r in st.runners
  {
    st.(runners := st.runners[r := st.runners[r].(phase := phase)])
  }

  function Free(st: State, r: Id): State { if st.lock == Some(r) then st.(lock := None) else st }

  /** A real runner that is past file `i` has moved the frontier there. */
  function Advance(st: State, o: Options, n: nat): State {
    if !o.dryRun && n > st.frontier then st.(frontier := n) else st
  }

  /** The action opens the gap: it commits DDL, and only that. */
  predicate OpensGap(file: File, action: Action) { action.Apply? && file.selfCommits }

  function CommitDdl(db: Db, file: File): Db { db.(ddl := db.ddl + [file.name]) }

  function InsertInto(db: Db, file: File): Db { db.(rows := db.rows[file.name := Some(file.checksum)]) }

  /** The write of a runner that has read a row; afterwards it is in `gap` or in `past`. */
  function Written(files: seq<File>, st: State, r: Id, gap: Phase, past: Phase): State
    requires r in st.runners && st.runners[r].phase.Read? && st.runners[r].phase.i < |files|
  {
    var x := st.runners[r];
    var file := files[x.phase.i];
    var action := Decide(file, x.phase.row, x.o);
    if action.Mismatch? then Move(st, r, Leaving(false))
    else if OpensGap(file, action) then Move(st.(db := CommitDdl(st.db, file)), r, gap)
    else Advance(Move(st.(db := Perform(st.db, file, action)), r, past), x.o, x.phase.i + 1)
  }

  /** The INSERT on its own. */
  function Inserted(files: seq<File>, st: State, r: Id, past: Phase): State
    requires r in st.runners && st.runners[r].phase.Gap? && st.runners[r].phase.i < |files|
  {
    var x := st.runners[r];
    Advance(Move(st.(db := InsertInto(st.db, files[x.phase.i])), r, past), x.o, x.phase.i + 1)
  }

  function Next(files: seq<File>, st: State, step: Step): State
    requires Enabled(files, st, step)
  {
    match step
    case Start(r, o) => st.(runners := st.runners[r := Runner(o, Starting)])
    case Enter(r) => Move(if st.runners[r].o.dryRun then st.(table := true) else st.(lock := Some(r), table := true), r, At(0))
    case Block(r) => Move(st, r, Waiting)
    case ReadRow(r) => Move(st, r, Read(st.runners[r].phase.i, Lookup(st.db.rows, files[st.runners[r].phase.i].name)))
    case Act(r) => Written(files, st, r, Gap(st.runners[r].phase.i), At(st.runners[r].phase.i + 1))
    case ActUnanswered(r) => Written(files, st, r, Leaving(false), Leaving(false))
    case ActFails(r) => Move(st, r, Leaving(false))
    case InsertRow(r) => Inserted(files, st, r, At(st.runners[r].phase.i + 1))
    case InsertUnanswered(r) => Inserted(files, st, r, Leaving(false))
    case InsertFails(r) => Move(st, r, Leaving(false))
    case Finish(r) => Move(st, r, Leaving(true))
    case Unlock(r) => Free(Move(st, r, Gone), r)
    case Crash(r) => Free(Move(st, r, Gone), r)
  }

  /** The step leaves DDL committed without its row: a crash or a failed INSERT in the gap, or the lost
      answer of a file that has committed itself. */
  predicate Tears(files: seq<File>, st: State, step: Step)
    requires Enabled(files, st, step)
  {
    match step
    case Crash(r) => st.runners[r].phase.Gap?
    case InsertFails(r) => true
    case ActUnanswered(r) =>
      var x := st.runners[r];
      OpensGap(files[x.phase.i], Decide(files[x.phase.i], x.phase.row, x.o))
    case _ => false
  }

  // ----- sequences of committed DDL -----

  function Names(s: seq<string>): set<string> { set x | x in s }

  /** Successive commits of the same file count once. */
  function Squeeze(s: seq<string>): seq<string> {
    if s == [] then []
    else
      var t := Squeeze(Front(s));
      if t != [] && Last(t) == Last(s) then t else t + [Last(s)]
  }

  predicate DupFree(s: seq<string>) { forall i, j :: 0 <= i < j < |s| ==> s[i] != s[j] }

  lemma {:induction false} SqueezeKeeps(s: seq<string>)
    ensures |Squeeze(s)| <= |s| && (|Squeeze(s)| == |s| ==> Squeeze(s) == s)
    ensures forall x :: x in Squeeze(s) <==> x in s
    ensures s != [] ==> Squeeze(s) != [] && Last(Squeeze(s)) == Last(s)
  {
    if s != [] {
      SqueezeKeeps(Front(s));
      assert s == Front(s) + [Last(s)];
      var t := Squeeze(Front(s));
      assert forall x :: x in s <==> x in Front(s) || x == Last(s);
      assert t != [] ==> Last(t) in t;
    }
  }

  /** Nothing repeats exactly when there is nothing to squeeze. */
  lemma {:induction false} DupFreeSqueeze(s: seq<string>)
    requires DupFree(Squeeze(s))
    ensures DupFree(s) <==> |Squeeze(s)| == |s|
  {
    SqueezeKeeps(s);
    if DupFree(s) {
      SqueezeOfDupFree(s);
    }
  }

  lemma {:induction false} SqueezeOfDupFree(s: seq<string>)
    requires DupFree(s)
    ensures Squeeze(s) == s
  {
    if s != [] {
      SqueezeOfDupFree(Front(s));
      assert s == Front(s) + [Last(s)];
    }
  }

  lemma SqueezeSnoc(s: seq<string>, x: string)
    ensures Squeeze(s + [x]) == if s != [] && Last(s) == x then Squeeze(s) else Squeeze(s) + [x]
    ensures Names(s + [x]) == Names(s) + {x}
  {
    assert Front(s + [x]) == s;
    SqueezeKeeps(s);
  }

  // ----- the inductive invariant -----

  /** Whether a real runner is inside its critical section. */
  predicate Inside(x: Runner) { !x.o.dryRun && (x.phase.At? || x.phase.Read? || x.phase.Gap? || x.phase.Leaving?) }

  predicate LockOk(st: State) {
    && (forall r | r in st.runners && Inside(st.runners[r]) :: st.lock == Some(r))
    && (forall r | r in st.runners && st.runners[r].phase.Gap? :: !st.runners[r].o.dryRun)
  }

  /** The file at the frontier has committed DDL and no row. */
  predicate Open(files: seq<File>, st: State) {
    && st.frontier < |files| && st.db.ddl != []
    && Last(st.db.ddl) == files[st.frontier].name && files[st.frontier].name !in st.db.rows
  }

  /** What the lock holder knows: everything before its index is settled, and the row it read is current. */
  predicate HolderOk(files: seq<File>, st: State, x: Runner) {
    match x.phase
    case At(i) => i <= st.frontier && i <= |files| && Settled(st.db.rows, files, i)
    case Read(i, row) =>
      i <= st.frontier && i < |files| && Settled(st.db.rows, files, i) && row == Lookup(st.db.rows, files[i].name)
    case Gap(i) =>
      i == st.frontier && i < |files| && Settled(st.db.rows, files, i) && Open(files, st)
      && files[i].selfCommits && !files[i].redundant
    case Leaving(ok) => ok ==> Settled(st.db.rows, files, |files|)
    case _ => true
  }

  /** The committed files are, in order, the pending ones up to the frontier, and the one at the frontier if
      it is open. */
  predicate DdlOk(files: seq<File>, rows0: Rows, st: State)
    requires st.frontier <= |files|
  {
    Squeeze(st.db.ddl) == Pending(rows0, files[..if Open(files, st) then st.frontier + 1 else st.frontier])
  }

  /** The rows are those of the beginning and of the pending files up to the frontier. */
  predicate RowsOk(files: seq<File>, rows0: Rows, st: State)
    requires st.frontier <= |files|
  {
    st.db.rows.Keys == rows0.Keys + Names(Pending(rows0, files[..st.frontier]))
  }

  predicate DbOk(files: seq<File>, rows0: Rows, st: State) {
    st.frontier <= |files| && RowsOk(files, rows0, st) && DdlOk(files, rows0, st)
  }

  predicate Inv(files: seq<File>, rows0: Rows, st: State) {
    && LockOk(st)
    && DbOk(files, rows0, st)
    && (forall r | r in st.runners && Inside(st.runners[r]) :: HolderOk(files, st, st.runners[r]))
  }

  predicate IsPending(rows: Rows, files: seq<File>, x: string) {
    exists i :: 0 <= i < |files| && files[i].name == x && !files[i].redundant && x !in rows
  }

  lemma {:induction false} PendingNames(rows: Rows, files: seq<File>, x: string)
    ensures x in Pending(rows, files) <==> IsPending(rows, files, x)
  {
    if files != [] {
      PendingNames(rows, Front(files), x);
      var n := |files| - 1;
      if IsPending(rows, Front(files), x) {
        var i :| 0 <= i < n && Front(files)[i].name == x && !Front(files)[i].redundant && x !in rows;
        assert files[i].name == x;
      }
    }
  }

  lemma {:induction false} PendingOnce(rows: Rows, files: seq<File>)
    requires Distinct(files)
    ensures DupFree(Pending(rows, files))
  {
    if files != [] {
      PendingOnce(rows, Front(files));
      PendingNames(rows, Front(files), Last(files).name);
      var p := Pending(rows, Front(files));
      assert forall k :: 0 <= k < |p| ==> p[k] in p;
    }
  }

  lemma PendingGrows(rows0: Rows, files: seq<File>, i: nat)
    requires i < |files|
    ensures Pending(rows0, files[..i + 1])
         == Pending(rows0, files[..i]) + (if files[i].redundant || files[i].name in rows0 then [] else [files[i].name])
  {
    assert Front(files[..i + 1]) == files[..i] && Last(files[..i + 1]) == files[i];
  }

  /** A file is not among the pending ones before it. */
  lemma NotBefore(files: seq<File>, rows0: Rows, i: nat, n: nat)
    requires Distinct(files) && i <= n < |files|
    ensures files[n].name !in Pending(rows0, files[..i])
  {
    PendingNames(rows0, files[..i], files[n].name);
  }

  /** Below the frontier every file is on record or redundant; at the frontier a file is on record
      exactly if it was there from the beginning. */
  lemma FrontierFile(files: seq<File>, rows0: Rows, st: State, i: nat)
    requires Distinct(files) && DbOk(files, rows0, st) && i <= st.frontier && i < |files|
    ensures i < st.frontier ==> files[i].redundant || files[i].name in st.db.rows
    ensures i == st.frontier ==> (files[i].name in st.db.rows <==> files[i].name in rows0)
  {
    PendingNames(rows0, files[..st.frontier], files[i].name);
    if i < st.frontier && !files[i].redundant && files[i].name !in rows0 {
      assert files[..st.frontier][i].name == files[i].name;
      assert IsPending(rows0, files[..st.frontier], files[i].name);
    }
  }

  /** An open file is pending. */
  lemma OpenIsPending(files: seq<File>, rows0: Rows, st: State)
    requires Distinct(files) && DbOk(files, rows0, st) && Open(files, st)
    ensures !files[st.frontier].redundant && files[st.frontier].name !in rows0
  {
    SqueezeKeeps(st.db.ddl);
    PendingGrows(rows0, files, st.frontier);
    NotBefore(files, rows0, st.frontier, st.frontier);
    assert Last(st.db.ddl) in st.db.ddl;
  }

  /** With every commit recorded, the next file is not open. */
  lemma NotOpenNext(files: seq<File>, st: State)
    requires forall x | x in st.db.ddl :: x in st.db.rows
    ensures !Open(files, st)
  {
    if st.db.ddl != [] {
      assert Last(st.db.ddl) in st.db.ddl;
    }
  }

  lemma CommitsAreRecorded(files: seq<File>, rows0: Rows, st: State)
    requires DbOk(files, rows0, st) && !Open(files, st)
    ensures forall x | x in st.db.ddl :: x in st.db.rows
  {
    SqueezeKeeps(st.db.ddl);
  }

  // ----- the three writes -----

  /** The file at the frontier commits itself. */
  lemma CommitDdlKeepsDb(files: seq<File>, rows0: Rows, st: State)
    requires Distinct(files) && DbOk(files, rows0, st) && st.frontier < |files|
    requires !files[st.frontier].redundant && files[st.frontier].name !in st.db.rows
    ensures var st' := st.(db := CommitDdl(st.db, files[st.frontier])); DbOk(files, rows0, st') && Open(files, st')
  {
    var n, f := st.frontier, files[st.frontier];
    var st' := st.(db := CommitDdl(st.db, f));
    FrontierFile(files, rows0, st, n);
    PendingGrows(rows0, files, n);
    LastOfSnoc(st.db.ddl, f.name);
    assert Open(files, st') && RowsOk(files, rows0, st');
    var before := Pending(rows0, files[..n]);
    assert Pending(rows0, files[..n + 1]) == before + [f.name];
    assert Open(files, st) <==> st.db.ddl != [] && Last(st.db.ddl) == f.name;
    CommitAgain(st.db.ddl, before, f.name);
  }

  /** A further commit of the last file, or the first of the next one. */
  lemma CommitAgain(ddl: seq<string>, before: seq<string>, name: string)
    requires Squeeze(ddl) == if ddl != [] && Last(ddl) == name then before + [name] else before
    ensures Squeeze(ddl + [name]) == before + [name]
  {
    SqueezeSnoc(ddl, name);
  }

  lemma LastOfSnoc(s: seq<string>, x: string)
    ensures s + [x] != [] && Last(s + [x]) == x
  {
  }

  /** The open file at the frontier gets its row. */
  lemma InsertKeepsDb(files: seq<File>, rows0: Rows, st: State)
    requires Distinct(files) && DbOk(files, rows0, st) && Open(files, st)
    ensures var st' := st.(db := InsertInto(st.db, files[st.frontier]), frontier := st.frontier + 1);
            DbOk(files, rows0, st') && !Open(files, st')
  {
    var n := st.frontier;
    var st' := st.(db := InsertInto(st.db, files[n]), frontier := n + 1);
    OpenIsPending(files, rows0, st);
    PendingGrows(rows0, files, n);
    NamesGrow(Pending(rows0, files[..n]), files[n].name);
    assert RowsOk(files, rows0, st');
    SqueezeKeeps(st.db.ddl);
    NotOpenNext(files, st');
  }

  lemma NamesGrow(s: seq<string>, x: string)
    ensures Names(s + [x]) == Names(s) + {x}
  {
  }

  /** Any other write of a real runner: it passes over the file, or applies and records it together. */
  lemma PerformKeepsDb(files: seq<File>, rows0: Rows, st: State, i: nat, o: Options) returns (st': State)
    requires Distinct(files) && DbOk(files, rows0, st) && i <= st.frontier && i < |files| && !o.dryRun
    requires Settled(st.db.rows, files, i)
    requires var a := Decide(files[i], Lookup(st.db.rows, files[i].name), o); !a.Mismatch? && !OpensGap(files[i], a)
    ensures st' == Advance(st.(db := Perform(st.db, files[i], Decide(files[i], Lookup(st.db.rows, files[i].name), o))), o, i + 1)
    ensures DbOk(files, rows0, st') && i + 1 <= st'.frontier && Settled(st'.db.rows, files, i + 1)
  {
    var action := Decide(files[i], Lookup(st.db.rows, files[i].name), o);
    st' := Advance(st.(db := Perform(st.db, files[i], action)), o, i + 1);
    SettledGrows(st.db, files, i, o);
    WriteKeepsDb(files, rows0, st, st', i, o);
  }

  lemma WriteKeepsDb(files: seq<File>, rows0: Rows, st: State, st': State, i: nat, o: Options)
    requires Distinct(files) && DbOk(files, rows0, st) && i <= st.frontier && i < |files| && !o.dryRun
    requires var a := Decide(files[i], Lookup(st.db.rows, files[i].name), o);
             !a.Mismatch? && st' == Advance(st.(db := Perform(st.db, files[i], a)), o, i + 1)
    ensures DbOk(files, rows0, st')
  {
    FrontierFile(files, rows0, st, i);
    PerformCount(st.db, files[i], o);
    if Decide(files[i], Lookup(st.db.rows, files[i].name), o).Apply? {
      ApplyAtFrontier(files, rows0, st);
    } else {
      assert st'.db.ddl == st.db.ddl && st'.db.rows.Keys == st.db.rows.Keys;
      if i == st.frontier {
        PassFrontier(files, rows0, st, st');
      } else {
        assert Open(files, st') == Open(files, st);
      }
    }
  }

  lemma ApplyAtFrontier(files: seq<File>, rows0: Rows, st: State)
    requires Distinct(files) && DbOk(files, rows0, st) && st.frontier < |files|
    requires !files[st.frontier].redundant && files[st.frontier].name !in st.db.rows
    ensures DbOk(files, rows0, st.(db := Perform(st.db, files[st.frontier], Apply), frontier := st.frontier + 1))
  {
    var n := st.frontier;
    var mid := st.(db := CommitDdl(st.db, files[n]));
    CommitDdlKeepsDb(files, rows0, st);
    InsertKeepsDb(files, rows0, mid);
  }

  /** The frontier moves past a file that is redundant or on record. */
  lemma PassFrontier(files: seq<File>, rows0: Rows, st: State, st': State)
    requires Distinct(files) && DbOk(files, rows0, st) && st.frontier < |files|
    requires files[st.frontier].redundant || files[st.frontier].name in st.db.rows
    requires st'.db.ddl == st.db.ddl && st'.db.rows.Keys == st.db.rows.Keys && st'.frontier == st.frontier + 1
    ensures DbOk(files, rows0, st')
  {
    FrontierFile(files, rows0, st, st.frontier);
    PendingGrows(rows0, files, st.frontier);
    assert Pending(rows0, files[..st.frontier]) + [] == Pending(rows0, files[..st.frontier]);
    if Open(files, st) {
      OpenIsPending(files, rows0, st);
    }
    CommitsAreRecorded(files, rows0, st);
    NotOpenNext(files, st');
  }

  lemma SettledGrows(db: Db, files: seq<File>, i: nat, o: Options)
    requires Distinct(files) && i < |files| && !o.dryRun && Settled(db.rows, files, i)
    requires !Decide(files[i], Lookup(db.rows, files[i].name), o).Mismatch?
    ensures Settled(Perform(db, files[i], Decide(files[i], Lookup(db.rows, files[i].name), o)).rows, files, i + 1)
  {
    FileDealtWith(db.rows, db, files, i, o);
  }

  /** Dry runs write nothing, and never open the gap. */
  lemma DryRunActsNot(file: File, row: Option<Option<string>>, o: Options, db: Db)
    requires o.dryRun
    ensures Perform(db, file, Decide(file, row, o)) == db && !OpensGap(file, Decide(file, row, o))
  {
  }

  // ----- every step keeps the invariant -----

  /** The lock holder moves on, after a write that left `st1`. */
  lemma HolderMoves(files: seq<File>, rows0: Rows, st: State, st1: State, r: Id, phase: Phase)
    requires LockOk(st) && r in st.runners && Inside(st.runners[r]) && st1.runners == st.runners && st1.lock == st.lock
    requires var y := st.runners[r].(phase := phase); DbOk(files, rows0, st1) && Inside(y) && HolderOk(files, st1, y)
    ensures Inv(files, rows0, Move(st1, r, phase))
  {
    var st' := Move(st1, r, phase);
    assert Open(files, st') == Open(files, st1);
    assert DbOk(files, rows0, st') && HolderOk(files, st', st'.runners[r]);
  }

  /** The write of the holder, by the phases it may end in. */
  lemma HolderWrites(files: seq<File>, rows0: Rows, st: State, r: Id, gap: Phase, past: Phase)
    requires Distinct(files) && Inv(files, rows0, st) && r in st.runners && !st.runners[r].o.dryRun
    requires st.runners[r].phase.Read? && st.runners[r].phase.i < |files|
    requires gap in {Gap(st.runners[r].phase.i), Leaving(false)} && past in {At(st.runners[r].phase.i + 1), Leaving(false)}
    ensures Inv(files, rows0, Written(files, st, r, gap, past))
  {
    var x := st.runners[r];
    var i := x.phase.i;
    assert HolderOk(files, st, x);
    var action := Decide(files[i], x.phase.row, x.o);
    if action.Mismatch? {
      HolderMoves(files, rows0, st, st, r, Leaving(false));
    } else if OpensGap(files[i], action) {
      HolderOpensGap(files, rows0, st, r, gap);
    } else {
      HolderPerforms(files, rows0, st, r, past);
      WrittenIsPerformed(files, st, r, gap, past);
    }
  }

  lemma HolderOpensGap(files: seq<File>, rows0: Rows, st: State, r: Id, gap: Phase)
    requires Distinct(files) && Inv(files, rows0, st) && r in st.runners && !st.runners[r].o.dryRun
    requires HolderOk(files, st, st.runners[r]) && st.runners[r].phase.Read? && gap in {Gap(st.runners[r].phase.i), Leaving(false)}
    requires OpensGap(files[st.runners[r].phase.i], Decide(files[st.runners[r].phase.i], st.runners[r].phase.row, st.runners[r].o))
    ensures Inv(files, rows0, Move(st.(db := CommitDdl(st.db, files[st.runners[r].phase.i])), r, gap))
  {
    var i := st.runners[r].phase.i;
    FrontierFile(files, rows0, st, i);
    CommitDdlKeepsDb(files, rows0, st);
    HolderMoves(files, rows0, st, st.(db := CommitDdl(st.db, files[i])), r, gap);
  }

  /** A real write that does not open the gap, before the runner moves. */
  function Performed(files: seq<File>, st: State, x: Runner): State
    requires x.phase.Read? && x.phase.i < |files|
  {
    var file := files[x.phase.i];
    Advance(st.(db := Perform(st.db, file, Decide(file, x.phase.row, x.o))), x.o, x.phase.i + 1)
  }

  lemma WrittenIsPerformed(files: seq<File>, st: State, r: Id, gap: Phase, past: Phase)
    requires r in st.runners && st.runners[r].phase.Read? && st.runners[r].phase.i < |files|
    requires var x := st.runners[r]; var a := Decide(files[x.phase.i], x.phase.row, x.o);
             !a.Mismatch? && !OpensGap(files[x.phase.i], a)
    ensures Written(files, st, r, gap, past) == Move(Performed(files, st, st.runners[r]), r, past)
  {
  }

  lemma HolderPerforms(files: seq<File>, rows0: Rows, st: State, r: Id, past: Phase)
    requires Distinct(files) && Inv(files, rows0, st) && r in st.runners && !st.runners[r].o.dryRun
    requires HolderOk(files, st, st.runners[r]) && st.runners[r].phase.Read?
    requires past in {At(st.runners[r].phase.i + 1), Leaving(false)}
    requires var x := st.runners[r]; var a := Decide(files[x.phase.i], x.phase.row, x.o);
             !a.Mismatch? && !OpensGap(files[x.phase.i], a)
    ensures Inv(files, rows0, Move(Performed(files, st, st.runners[r]), r, past))
  {
    PerformedFacts(files, rows0, st, st.runners[r]);
    HolderMoves(files, rows0, st, Performed(files, st, st.runners[r]), r, past);
  }

  lemma PerformedFacts(files: seq<File>, rows0: Rows, st: State, x: Runner)
    requires Distinct(files) && DbOk(files, rows0, st) && HolderOk(files, st, x) && x.phase.Read? && !x.o.dryRun
    requires var a := Decide(files[x.phase.i], x.phase.row, x.o); !a.Mismatch? && !OpensGap(files[x.phase.i], a)
    ensures var st1, i := Performed(files, st, x), x.phase.i;
            && DbOk(files, rows0, st1) && i + 1 <= st1.frontier && Settled(st1.db.rows, files, i + 1)
            && st1.runners == st.runners && st1.lock == st.lock
  {
    var st1 := PerformKeepsDb(files, rows0, st, x.phase.i, x.o);
    assert st1 == Performed(files, st, x);
  }

  lemma HolderInserts(files: seq<File>, rows0: Rows, st: State, r: Id, past: Phase)
    requires Distinct(files) && Inv(files, rows0, st) && r in st.runners && st.runners[r].phase.Gap?
    requires st.runners[r].phase.i < |files| && past in {At(st.runners[r].phase.i + 1), Leaving(false)}
    ensures Inv(files, rows0, Inserted(files, st, r, past))
  {
    var x := st.runners[r];
    assert HolderOk(files, st, x);
    InsertKeepsDb(files, rows0, st);
    InsertSettles(st.db, files, x.phase.i);
    var st1 := st.(db := InsertInto(st.db, files[x.phase.i]), frontier := st.frontier + 1);
    HolderMoves(files, rows0, st, st1, r, past);
    assert Inserted(files, st, r, past) == Move(st1, r, past);
  }

  lemma InsertSettles(db: Db, files: seq<File>, i: nat)
    requires Distinct(files) && i < |files| && Settled(db.rows, files, i)
    ensures Settled(InsertInto(db, files[i]).rows, files, i + 1)
  {
  }

  /** Nothing is written, and whoever is inside afterwards knows what it should. */
  lemma NothingWritten(files: seq<File>, rows0: Rows, st: State, st': State)
    requires Inv(files, rows0, st) && st'.db == st.db && st'.frontier == st.frontier
    requires forall r | r in st'.runners && Inside(st'.runners[r]) :: st'.lock == Some(r) && HolderOk(files, st, st'.runners[r])
    requires forall r | r in st'.runners && st'.runners[r].phase.Gap? :: !st'.runners[r].o.dryRun
    ensures Inv(files, rows0, st')
  {
    assert Open(files, st') == Open(files, st);
    forall r | r in st'.runners && Inside(st'.runners[r]) ensures HolderOk(files, st', st'.runners[r]) {
      assert HolderOk(files, st, st'.runners[r]);
    }
  }

  lemma DryRunKeepsInv(files: seq<File>, rows0: Rows, st: State, step: Step)
    requires Inv(files, rows0, st) && Enabled(files, st, step)
    requires (step.Act? || step.ActUnanswered?) && st.runners[step.r].o.dryRun
    ensures Inv(files, rows0, Next(files, st, step)) && Next(files, st, step).db == st.db
    ensures Next(files, st, step).frontier == st.frontier
  {
    var x := st.runners[step.r];
    DryRunActsNot(files[x.phase.i], x.phase.row, x.o, st.db);
    NothingWritten(files, rows0, st, Next(files, st, step));
  }

  predicate Writes(step: Step) { step.Act? || step.ActUnanswered? || step.InsertRow? || step.InsertUnanswered? }

  /** The steps that write nothing. */
  lemma OthersKeepInv(files: seq<File>, rows0: Rows, st: State, step: Step)
    requires Inv(files, rows0, st) && Enabled(files, st, step) && !Writes(step)
    ensures Inv(files, rows0, Next(files, st, step)) && Next(files, st, step).db == st.db
    ensures Next(files, st, step).frontier == st.frontier
  {
    var st' := Next(files, st, step);
    forall r | r in st'.runners && Inside(st'.runners[r]) ensures st'.lock == Some(r) && HolderOk(files, st, st'.runners[r]) {
      if r in st.runners && Inside(st.runners[r]) {
        assert HolderOk(files, st, st.runners[r]);
      }
    }
    NothingWritten(files, rows0, st, st');
  }

  lemma WriteKeepsInv(files: seq<File>, rows0: Rows, st: State, step: Step)
    requires Distinct(files) && Inv(files, rows0, st) && Enabled(files, st, step)
    requires (step.Act? || step.ActUnanswered?) && !st.runners[step.r].o.dryRun
    ensures Inv(files, rows0, Next(files, st, step))
  {
    var i := st.runners[step.r].phase.i;
    if step.Act? {
      HolderWrites(files, rows0, st, step.r, Gap(i), At(i + 1));
    } else {
      HolderWrites(files, rows0, st, step.r, Leaving(false), Leaving(false));
    }
  }

  lemma InsertKeepsInv(files: seq<File>, rows0: Rows, st: State, step: Step)
    requires Distinct(files) && Inv(files, rows0, st) && Enabled(files, st, step)
    requires step.InsertRow? || step.InsertUnanswered?
    ensures Inv(files, rows0, Next(files, st, step))
  {
    var i := st.runners[step.r].phase.i;
    HolderInserts(files, rows0, st, step.r, if step.InsertRow? then At(i + 1) else Leaving(false));
  }

  lemma StepKeepsInv(files: seq<File>, rows0: Rows, st: State, step: Step)
    requires Distinct(files) && Inv(files, rows0, st) && Enabled(files, st, step)
    ensures Inv(files, rows0, Next(files, st, step))
  {
    if step.InsertRow? || step.InsertUnanswered? {
      InsertKeepsInv(files, rows0, st, step);
    } else if !Writes(step) {
      OthersKeepInv(files, rows0, st, step);
    } else if st.runners[step.r].o.dryRun {
      DryRunKeepsInv(files, rows0, st, step);
    } else {
      WriteKeepsInv(files, rows0, st, step);
    }
  }

  // ----- runs -----

  function Initial(rows0: Rows): State { State(Db(rows0, []), None, map[], 0, false) }

  predicate IsRun(files: seq<File>, rows0: Rows, steps: seq<Step>)
    decreases |steps|, 0
  {
    steps == [] || (IsRun(files, rows0, Front(steps)) && Enabled(files, Final(files, rows0, Front(steps)), Last(steps)))
  }

  function Final(files: seq<File>, rows0: Rows, steps: seq<Step>): State
    requires IsRun(files, rows0, steps)
    decreases |steps|, 1
  {
    if steps == [] then Initial(rows0) else Next(files, Final(files, rows0, Front(steps)), Last(steps))
  }

  /** How often the run left a file committed without its row. */
  function TearCount(files: seq<File>, rows0: Rows, steps: seq<Step>): nat
    requires IsRun(files, rows0, steps)
  {
    if steps == [] then 0
    else
      TearCount(files, rows0, Front(steps))
      + if Tears(files, Final(files, rows0, Front(steps)), Last(steps)) then 1 else 0
  }

  /** Whether a runner is in the gap; it then has the lock. */
  predicate GapHeld(st: State) {
    st.lock.Some? && st.lock.value in st.runners && st.runners[st.lock.value].phase.Gap?
  }

  lemma {:induction false} RunKeepsInv(files: seq<File>, rows0: Rows, steps: seq<Step>)
    requires Distinct(files) && IsRun(files, rows0, steps)
    ensures Inv(files, rows0, Final(files, rows0, steps))
  {
    if steps == [] {
      assert files[..0] == [];
      assert Names([]) == {};
    } else {
      RunKeepsInv(files, rows0, Front(steps));
      StepKeepsInv(files, rows0, Final(files, rows0, Front(steps)), Last(steps));
    }
  }

  // ----- what every interleaving guarantees -----

  /** The files that have committed are, in order, the pending ones of some prefix of the list, and each
      one's commits are adjacent; the files on record are those from the start and the pending ones of a
      prefix that is the same or shorter by one file. */
  lemma CommittedDdlIsAPrefix(files: seq<File>, rows0: Rows, steps: seq<Step>) returns (p: nat, q: nat)
    requires Distinct(files) && IsRun(files, rows0, steps)
    ensures IsPrefix(files, rows0, Final(files, rows0, steps).db, p, q)
  {
    RunKeepsInv(files, rows0, steps);
    p, q := PrefixOf(files, rows0, Final(files, rows0, steps));
  }

  lemma PrefixOf(files: seq<File>, rows0: Rows, st: State) returns (p: nat, q: nat)
    requires DbOk(files, rows0, st)
    ensures IsPrefix(files, rows0, st.db, p, q)
  {
    p, q := if Open(files, st) then st.frontier + 1 else st.frontier, st.frontier;
  }

  /** `p` files have been dealt with by commits, and `q` of them by rows. */
  predicate IsPrefix(files: seq<File>, rows0: Rows, db: Db, p: int, q: int) {
    && 0 <= q <= p <= q + 1 && p <= |files|
    && Squeeze(db.ddl) == Pending(rows0, files[..p])
    && db.rows.Keys == rows0.Keys + Names(Pending(rows0, files[..q]))
  }

  predicate PrefixClosed(rows: Rows, files: seq<File>) {
    forall i, j :: 0 <= i < j < |files| && !files[i].redundant && !files[j].redundant && files[j].name in rows ==> files[i].name in rows
  }

  /** From a prefix-closed table, such as an empty one, the files on record always form a prefix of the
      non-redundant files. */
  lemma AppliedFilesStayAPrefix(files: seq<File>, rows0: Rows, steps: seq<Step>)
    requires Distinct(files) && IsRun(files, rows0, steps) && PrefixClosed(rows0, files)
    ensures PrefixClosed(Final(files, rows0, steps).db.rows, files)
  {
    RunKeepsInv(files, rows0, steps);
    var st := Final(files, rows0, steps);
    forall i, j | 0 <= i < j < |files| && !files[i].redundant && !files[j].redundant && files[j].name in st.db.rows
      ensures files[i].name in st.db.rows
    {
      if i < st.frontier {
        FrontierFile(files, rows0, st, i);
      } else {
        PendingNames(rows0, files[..st.frontier], files[j].name);
        assert files[j].name in rows0;
      }
    }
  }

  /** Two real runners are never inside together. */
  lemma RunnersExclude(files: seq<File>, rows0: Rows, steps: seq<Step>, r: Id, q: Id)
    requires Distinct(files) && IsRun(files, rows0, steps)
    requires r in Final(files, rows0, steps).runners && Inside(Final(files, rows0, steps).runners[r])
    requires q in Final(files, rows0, steps).runners && Inside(Final(files, rows0, steps).runners[q])
    ensures r == q
  {
    RunKeepsInv(files, rows0, steps);
  }

  /** Once every file is settled, nothing any runner does changes the database. */
  lemma SettledIsFinal(files: seq<File>, rows0: Rows, st: State, step: Step)
    requires Distinct(files) && Inv(files, rows0, st) && Enabled(files, st, step)
    requires Settled(st.db.rows, files, |files|)
    ensures Next(files, st, step).db == st.db
  {
    if step.Act? || step.ActUnanswered? {
      var x := st.runners[step.r];
      if x.o.dryRun {
        DryRunActsNot(files[x.phase.i], x.phase.row, x.o, st.db);
      } else {
        assert HolderOk(files, st, x);
      }
    }
  }

  /** After a real run has succeeded, every applied file's stored checksum is the file's own, every
      non-redundant file is applied, and every pending file has committed; whatever runs, crashes or fails
      afterwards changes none of that, and commits nothing more. */
  lemma {:induction false} SuccessLasts(files: seq<File>, rows0: Rows, steps: seq<Step>, k: nat)
    requires Distinct(files) && IsRun(files, rows0, steps) && k < |steps|
    requires steps[k].Finish? && RealFinish(files, rows0, steps, k)
    ensures var db := Final(files, rows0, steps).db;
            && Settled(db.rows, files, |files|) && Squeeze(db.ddl) == Pending(rows0, files)
            && IsRun(files, rows0, steps[..k]) && db == Final(files, rows0, steps[..k]).db
  {
    PrefixIsRun(files, rows0, steps, k);
    RunKeepsInv(files, rows0, Front(steps));
    var st := Final(files, rows0, Front(steps));
    if k == |steps| - 1 {
      assert steps[..k] == Front(steps);
      assert HolderOk(files, st, st.runners[steps[k].r]);
      assert files[..|files|] == files && st.frontier == |files|;
    } else {
      assert Front(steps)[..k] == steps[..k];
      SuccessLasts(files, rows0, Front(steps), k);
      SettledIsFinal(files, rows0, st, Last(steps));
    }
  }

  lemma {:induction false} PrefixIsRun(files: seq<File>, rows0: Rows, steps: seq<Step>, k: nat)
    requires IsRun(files, rows0, steps) && k <= |steps|
    ensures IsRun(files, rows0, steps[..k])
  {
    if k == |steps| {
      assert steps[..k] == steps;
    } else {
      PrefixIsRun(files, rows0, Front(steps), k);
      assert Front(steps)[..k] == steps[..k];
    }
  }

  /** The `k`-th step is the end of a run that is not a dry run. */
  predicate RealFinish(files: seq<File>, rows0: Rows, steps: seq<Step>, k: nat)
    requires IsRun(files, rows0, steps) && k < |steps| && steps[k].Finish?
  {
    PrefixIsRun(files, rows0, steps, k);
    var st := Final(files, rows0, steps[..k]);
    steps[k].r in st.runners && !st.runners[steps[k].r].o.dryRun
  }

  // ----- when rows and committed DDL agree -----

  /** Every committed file is on record and no file has committed twice. */
  predicate Exact(rows0: Rows, db: Db) {
    db.rows.Keys == rows0.Keys + Names(db.ddl) && DupFree(db.ddl)
  }

  /** One step's share in the count of commits. */
  lemma StepCount(files: seq<File>, rows0: Rows, st: State, step: Step)
    requires Distinct(files) && Inv(files, rows0, st) && Enabled(files, st, step)
    ensures var st' := Next(files, st, step);
            && st'.frontier <= |files|
            && |st'.db.ddl| + |Pending(rows0, files[..st.frontier])| + (if GapHeld(st) then 1 else 0)
               == |st.db.ddl| + |Pending(rows0, files[..st'.frontier])| + (if GapHeld(st') then 1 else 0)
                  + (if Tears(files, st, step) then 1 else 0)
  {
    StepKeepsInv(files, rows0, st, step);
    if (step.Act? || step.ActUnanswered?) && !st.runners[step.r].o.dryRun {
      WriteCount(files, rows0, st, step);
    } else if step.InsertRow? || step.InsertUnanswered? {
      assert HolderOk(files, st, st.runners[step.r]);
      OpenIsPending(files, rows0, st);
      PendingGrows(rows0, files, st.frontier);
    } else if Writes(step) {
      DryRunKeepsInv(files, rows0, st, step);
      OthersKeepGap(files, rows0, st, step);
    } else {
      OthersKeepInv(files, rows0, st, step);
      OthersKeepGap(files, rows0, st, step);
    }
  }

  lemma OthersKeepGap(files: seq<File>, rows0: Rows, st: State, step: Step)
    requires Inv(files, rows0, st) && Enabled(files, st, step)
    requires (step.Act? || step.ActUnanswered?) ==> st.runners[step.r].o.dryRun
    requires !step.InsertRow? && !step.InsertUnanswered?
    ensures GapHeld(st) <==> GapHeld(Next(files, st, step)) || Tears(files, st, step)
    ensures !(GapHeld(Next(files, st, step)) && Tears(files, st, step))
  {
    if step.Act? || step.ActUnanswered? {
      DryRunActsNot(files[st.runners[step.r].phase.i], st.runners[step.r].phase.row, st.runners[step.r].o, st.db);
    }
  }

  lemma WriteCount(files: seq<File>, rows0: Rows, st: State, step: Step)
    requires Distinct(files) && Inv(files, rows0, st) && Enabled(files, st, step)
    requires (step.Act? || step.ActUnanswered?) && !st.runners[step.r].o.dryRun
    ensures var st' := Next(files, st, step);
            && st'.frontier <= |files| && !GapHeld(st)
            && |st'.db.ddl| + |Pending(rows0, files[..st.frontier])|
               == |st.db.ddl| + |Pending(rows0, files[..st'.frontier])| + (if GapHeld(st') then 1 else 0)
                  + (if Tears(files, st, step) then 1 else 0)
  {
    var x := st.runners[step.r];
    var i := x.phase.i;
    assert HolderOk(files, st, x) && st.lock == Some(step.r);
    FrontierFile(files, rows0, st, i);
    WriteGap(files, st, step);
    if i == st.frontier {
      PendingGrows(rows0, files, i);
    }
  }

  /** What a write does to the frontier, the commits and the gap. */
  lemma WriteGap(files: seq<File>, st: State, step: Step)
    requires Enabled(files, st, step) && (step.Act? || step.ActUnanswered?)
    requires var x := st.runners[step.r];
             !x.o.dryRun && st.lock == Some(step.r) && x.phase.i <= st.frontier
             && x.phase.row == Lookup(st.db.rows, files[x.phase.i].name)
    ensures var x, st' := st.runners[step.r], Next(files, st, step);
            var a := Decide(files[x.phase.i], x.phase.row, x.o);
            && |st'.db.ddl| == |st.db.ddl| + (if a.Apply? then 1 else 0)
            && (a.Apply? <==> !files[x.phase.i].redundant && files[x.phase.i].name !in st.db.rows)
            && st'.frontier == (if a.Mismatch? || OpensGap(files[x.phase.i], a) || x.phase.i < st.frontier then st.frontier
                                else st.frontier + 1)
            && (OpensGap(files[x.phase.i], a) <==> GapHeld(st') || Tears(files, st, step))
            && !(GapHeld(st') && Tears(files, st, step))
            && (a.Mismatch? ==> files[x.phase.i].name in st.db.rows)
  {
    var x := st.runners[step.r];
    PerformCount(st.db, files[x.phase.i], x.o);
  }

  /** A write commits a file exactly when it is neither redundant nor on record. */
  lemma PerformCount(db: Db, file: File, o: Options)
    requires !o.dryRun
    ensures var a := Decide(file, Lookup(db.rows, file.name), o);
            && (a.Apply? <==> !file.redundant && file.name !in db.rows)
            && |Perform(db, file, a).ddl| == |db.ddl| + (if a.Apply? then 1 else 0)
  {
  }

  /** Commits are counted by the recorded pending files, the tears, and the gap. */
  lemma {:induction false} CommitsAreCounted(files: seq<File>, rows0: Rows, steps: seq<Step>)
    requires Distinct(files) && IsRun(files, rows0, steps)
    ensures var st := Final(files, rows0, steps);
            && st.frontier <= |files|
            && |st.db.ddl| == |Pending(rows0, files[..st.frontier])| + TearCount(files, rows0, steps)
                              + (if GapHeld(st) then 1 else 0)
  {
    if steps == [] {
      assert files[..0] == [];
    } else {
      CommitsAreCounted(files, rows0, Front(steps));
      RunKeepsInv(files, rows0, Front(steps));
      StepCount(files, rows0, Final(files, rows0, Front(steps)), Last(steps));
    }
  }

  /** After any run, every committed file is on record and none has committed twice if and only if no
      runner is in the gap and no crash, failed INSERT or lost answer has ever struck in one. */
  lemma ExactIffNoTear(files: seq<File>, rows0: Rows, steps: seq<Step>)
    requires Distinct(files) && IsRun(files, rows0, steps)
    ensures Exact(rows0, Final(files, rows0, steps).db)
       <==> TearCount(files, rows0, steps) == 0 && !GapHeld(Final(files, rows0, steps))
  {
    RunKeepsInv(files, rows0, steps);
    CommitsAreCounted(files, rows0, steps);
    var st := Final(files, rows0, steps);
    NamesOfSqueeze(st.db.ddl);
    SqueezeKeeps(st.db.ddl);
    if Open(files, st) {
      OpenIsNotExact(files, rows0, st);
    } else {
      PendingOnce(rows0, files[..st.frontier]);
      DupFreeSqueeze(st.db.ddl);
    }
  }

  lemma NamesOfSqueeze(s: seq<string>)
    ensures Names(Squeeze(s)) == Names(s)
  {
    SqueezeKeeps(s);
  }

  /** An open file is committed without a row, by a tear or by a runner in the gap. */
  lemma OpenIsNotExact(files: seq<File>, rows0: Rows, st: State)
    requires Distinct(files) && DbOk(files, rows0, st) && Open(files, st)
    ensures !Exact(rows0, st.db) && |st.db.ddl| > |Pending(rows0, files[..st.frontier])|
  {
    OpenIsPending(files, rows0, st);
    PendingGrows(rows0, files, st.frontier);
    SqueezeKeeps(st.db.ddl);
    assert Last(st.db.ddl) in Names(st.db.ddl);
  }

  // ----- the condition that can be checked beforehand -----

  /** No file that has still to be applied commits itself. */
  predicate NoPendingSelfCommit(files: seq<File>, rows0: Rows) {
    forall i | 0 <= i < |files| && files[i].selfCommits :: files[i].redundant || files[i].name in rows0
  }

  lemma {:induction false} NoSelfCommitNoTear(files: seq<File>, rows0: Rows, steps: seq<Step>)
    requires Distinct(files) && IsRun(files, rows0, steps) && NoPendingSelfCommit(files, rows0)
    ensures TearCount(files, rows0, steps) == 0
    ensures forall r | r in Final(files, rows0, steps).runners :: !Final(files, rows0, steps).runners[r].phase.Gap?
  {
    if steps != [] {
      var st, step := Final(files, rows0, Front(steps)), Last(steps);
      NoSelfCommitNoTear(files, rows0, Front(steps));
      RunKeepsInv(files, rows0, Front(steps));
      if step.Act? || step.ActUnanswered? {
        NoGapOpens(files, rows0, st, st.runners[step.r]);
      }
      NoGapStep(files, st, step);
    }
  }

  lemma NoGapStep(files: seq<File>, st: State, step: Step)
    requires Enabled(files, st, step) && forall r | r in st.runners :: !st.runners[r].phase.Gap?
    requires (step.Act? || step.ActUnanswered?) ==>
               var x := st.runners[step.r]; !OpensGap(files[x.phase.i], Decide(files[x.phase.i], x.phase.row, x.o))
    ensures !Tears(files, st, step)
    ensures forall r | r in Next(files, st, step).runners :: !Next(files, st, step).runners[r].phase.Gap?
  {
  }

  lemma NoGapOpens(files: seq<File>, rows0: Rows, st: State, x: Runner)
    requires NoPendingSelfCommit(files, rows0) && DbOk(files, rows0, st) && x.phase.Read? && x.phase.i < |files|
    requires !x.o.dryRun ==> HolderOk(files, st, x)
    ensures !OpensGap(files[x.phase.i], Decide(files[x.phase.i], x.phase.row, x.o))
  {
  }

  lemma Extend(files: seq<File>, rows0: Rows, steps: seq<Step>, step: Step)
    requires IsRun(files, rows0, steps) && Enabled(files, Final(files, rows0, steps), step)
    ensures IsRun(files, rows0, steps + [step])
    ensures Final(files, rows0, steps + [step]) == Next(files, Final(files, rows0, steps), step)
  {
    assert Front(steps + [step]) == steps;
  }

  const REAL := Options(true, false)

  /** One real runner, undisturbed, gets to any file of the list. */
  lemma {:induction false} ReachFile(files: seq<File>, rows0: Rows, i: nat) returns (steps: seq<Step>)
    requires Distinct(files) && i <= |files|
    ensures IsRun(files, rows0, steps) && TearCount(files, rows0, steps) == 0
    ensures var st := Final(files, rows0, steps);
            st.lock == Some(0) && st.frontier == i && st.runners == map[0 := Runner(REAL, At(i))]
  {
    if i == 0 {
      Extend(files, rows0, [], Start(0, REAL));
      steps := [Start(0, REAL)];
      assert [] + steps == steps && Front(steps) == [];
      assert TearCount(files, rows0, steps) == 0;
      Extend(files, rows0, steps, Enter(0));
      assert Front(steps + [Enter(0)]) == steps;
      steps := steps + [Enter(0)];
    } else {
      steps := ReachFile(files, rows0, i - 1);
      steps := PassFile(files, rows0, steps, i - 1);
    }
  }

  lemma PassFile(files: seq<File>, rows0: Rows, steps: seq<Step>, i: nat) returns (more: seq<Step>)
    requires Distinct(files) && i < |files| && IsRun(files, rows0, steps) && TearCount(files, rows0, steps) == 0
    requires var st := Final(files, rows0, steps);
             st.lock == Some(0) && st.frontier == i && st.runners == map[0 := Runner(REAL, At(i))]
    ensures IsRun(files, rows0, more) && TearCount(files, rows0, more) == 0
    ensures var st := Final(files, rows0, more);
            st.lock == Some(0) && st.frontier == i + 1 && st.runners == map[0 := Runner(REAL, At(i + 1))]
  {
    more := ReadFile(files, rows0, steps, i);
    var st := ActOn(files, Final(files, rows0, more), i);
    Extend(files, rows0, more, Act(0));
    assert Front(more + [Act(0)]) == more;
    more := more + [Act(0)];
    if st.runners[0].phase.Gap? {
      Extend(files, rows0, more, InsertRow(0));
      assert Front(more + [InsertRow(0)]) == more;
      more := more + [InsertRow(0)];
    }
  }

  /** The runner of `ReachFile` writes file `i`, or opens its gap. */
  lemma ActOn(files: seq<File>, st: State, i: nat) returns (st': State)
    requires i < |files| && st.lock == Some(0) && st.frontier == i
    requires st.runners == map[0 := Runner(REAL, Read(i, Lookup(st.db.rows, files[i].name)))]
    ensures Enabled(files, st, Act(0)) && st' == Next(files, st, Act(0)) && !Tears(files, st, Act(0))
    ensures st'.lock == Some(0)
    ensures || (st'.frontier == i && st'.runners == map[0 := Runner(REAL, Gap(i))])
            || (st'.frontier == i + 1 && st'.runners == map[0 := Runner(REAL, At(i + 1))])
  {
    st' := Next(files, st, Act(0));
  }

  lemma ReadFile(files: seq<File>, rows0: Rows, steps: seq<Step>, i: nat) returns (more: seq<Step>)
    requires i < |files| && IsRun(files, rows0, steps) && TearCount(files, rows0, steps) == 0
    requires var st := Final(files, rows0, steps);
             st.lock == Some(0) && st.frontier == i && st.runners == map[0 := Runner(REAL, At(i))]
    ensures IsRun(files, rows0, more) && TearCount(files, rows0, more) == 0
    ensures var st, st' := Final(files, rows0, steps), Final(files, rows0, more);
            && st'.db == st.db && st'.lock == Some(0) && st'.frontier == i
            && st'.runners == map[0 := Runner(REAL, Read(i, Lookup(st.db.rows, files[i].name)))]
  {
    Extend(files, rows0, steps, ReadRow(0));
    more := steps + [ReadRow(0)];
    assert Front(more) == steps;
  }

  /** Every run keeps rows and commits exact, up to a runner that is just in the gap, if and only if no file
      that has still to be applied commits itself. */
  lemma EveryRunIsExactIff(files: seq<File>, rows0: Rows)
    requires Distinct(files)
    ensures (forall steps | IsRun(files, rows0, steps) && !GapHeld(Final(files, rows0, steps)) ::
               Exact(rows0, Final(files, rows0, steps).db))
       <==> NoPendingSelfCommit(files, rows0)
  {
    if NoPendingSelfCommit(files, rows0) {
      forall steps | IsRun(files, rows0, steps) && !GapHeld(Final(files, rows0, steps))
        ensures Exact(rows0, Final(files, rows0, steps).db)
      {
        NoSelfCommitNoTear(files, rows0, steps);
        ExactIffNoTear(files, rows0, steps);
      }
    } else {
      var i :| 0 <= i < |files| && files[i].selfCommits && !files[i].redundant && files[i].name !in rows0;
      var steps := TornRun(files, rows0, i);
      ExactIffNoTear(files, rows0, steps);
    }
  }

  /** A crash in the gap of a pending file that commits itself. */
  lemma TornRun(files: seq<File>, rows0: Rows, i: nat) returns (steps: seq<Step>)
    requires Distinct(files) && i < |files| && files[i].selfCommits && !files[i].redundant && files[i].name !in rows0
    ensures IsRun(files, rows0, steps) && TearCount(files, rows0, steps) == 1
    ensures var st := Final(files, rows0, steps);
            && st.lock == None && st.runners == map[0 := Runner(REAL, Gone)] && !GapHeld(st)
            && st.db.ddl != [] && Last(st.db.ddl) == files[i].name && files[i].name !in st.db.rows
  {
    steps := ReachFile(files, rows0, i);
    RunKeepsInv(files, rows0, steps);
    FrontierFile(files, rows0, Final(files, rows0, steps), i);
    steps := ReadFile(files, rows0, steps, i);
    Extend(files, rows0, steps, Act(0));
    assert Front(steps + [Act(0)]) == steps;
    steps := steps + [Act(0)];
    Extend(files, rows0, steps, Crash(0));
    assert Front(steps + [Crash(0)]) == steps;
    steps := steps + [Crash(0)];
  }

  const MARKETS_INDEXES := File("0002_markets_indexes.sql", "checksum", false, true)

  /** At `0002_markets_indexes.sql`, which commits itself: a runner crashes in the gap, a second one applies
      the file again, and its DDL has committed twice. */
  lemma SelfCommittingFileCommitsTwice()
    ensures var files := [MARKETS_INDEXES];
            exists steps :: IsRun(files, map[], steps) && Final(files, map[], steps).db.ddl == [files[0].name, files[0].name]
  {
    var files, rows0: Rows := [MARKETS_INDEXES], map[];
    var a := TornRun(files, rows0, 0);
    RunKeepsInv(files, rows0, a);
    CommitsAreCounted(files, rows0, a);
    var st := Final(files, rows0, a);
    var b := SecondRunner(files, rows0, a);
    assert Pending(rows0, files[..st.frontier]) == [] && st.db.ddl == [files[0].name];
    assert Final(files, rows0, b).db.ddl == [files[0].name] + [files[0].name] == [files[0].name, files[0].name];
  }

  /** A second runner enters after the crash and applies the first file. */
  lemma SecondRunner(files: seq<File>, rows0: Rows, a: seq<Step>) returns (steps: seq<Step>)
    requires files != [] && files[0].selfCommits && !files[0].redundant && IsRun(files, rows0, a)
    requires var st := Final(files, rows0, a);
             st.lock == None && st.runners == map[0 := Runner(REAL, Gone)] && files[0].name !in st.db.rows
    ensures IsRun(files, rows0, steps)
    ensures Final(files, rows0, steps).db.ddl == Final(files, rows0, a).db.ddl + [files[0].name]
  {
    var started, entered, read, acted := SecondStates(files, Final(files, rows0, a));
    ExtendTwice(files, rows0, a, Start(1, REAL), Enter(1), started, entered);
    steps := a + [Start(1, REAL), Enter(1)];
    ExtendTwice(files, rows0, steps, ReadRow(1), Act(1), read, acted);
    steps := steps + [ReadRow(1), Act(1)];
  }

  lemma SecondStates(files: seq<File>, st: State) returns (started: State, entered: State, read: State, acted: State)
    requires files != [] && files[0].selfCommits && !files[0].redundant && files[0].name !in st.db.rows
    requires st.lock == None && st.runners == map[0 := Runner(REAL, Gone)]
    ensures Enabled(files, st, Start(1, REAL)) && started == Next(files, st, Start(1, REAL))
    ensures Enabled(files, started, Enter(1)) && entered == Next(files, started, Enter(1))
    ensures Enabled(files, entered, ReadRow(1)) && read == Next(files, entered, ReadRow(1))
    ensures Enabled(files, read, Act(1)) && acted == Next(files, read, Act(1))
    ensures acted.db.ddl == st.db.ddl + [files[0].name]
  {
    started := Next(files, st, Start(1, REAL));
    entered := Next(files, started, Enter(1));
    read := Next(files, entered, ReadRow(1));
    acted := Next(files, read, Act(1));
  }

  lemma ExtendTwice(files: seq<File>, rows0: Rows, steps: seq<Step>, one: Step, two: Step, a: State, b: State)
    requires IsRun(files, rows0, steps) && Enabled(files, Final(files, rows0, steps), one)
    requires a == Next(files, Final(files, rows0, steps), one) && Enabled(files, a, two) && b == Next(files, a, two)
    ensures IsRun(files, rows0, steps + [one, two]) && Final(files, rows0, steps + [one, two]) == b
  {
    Extend(files, rows0, steps, one);
    Extend(files, rows0, steps + [one], two);
    assert steps + [one] + [two] == steps + [one, two];
  }

  // ----- the bookkeeping table -----

  /** A real runner that starts gets in exactly if nobody has the lock, and otherwise waits; one that waits
      gets in exactly when nobody has it any more. */
  lemma EnterIff(files: seq<File>, st: State, r: Id)
    requires r in st.runners && !st.runners[r].o.dryRun && (st.runners[r].phase.Starting? || st.runners[r].phase.Waiting?)
    ensures Enabled(files, st, Enter(r)) <==> st.lock == None
    ensures st.runners[r].phase.Starting? ==> (Enabled(files, st, Block(r)) <==> st.lock != None)
    ensures Enabled(files, st, Block(r)) ==> Next(files, st, Block(r)).runners[r] == st.runners[r].(phase := Waiting)
    ensures Enabled(files, st, Enter(r)) ==>
              Next(files, st, Enter(r)).lock == Some(r) && Next(files, st, Enter(r)).runners[r] == st.runners[r].(phase := At(0))
  {
  }

  /** From every table an undisturbed real run gets through, reports success and frees the lock; by then every
      file is settled and every pending one has committed exactly once. */
  lemma RunnerSucceeds(files: seq<File>, rows0: Rows) returns (steps: seq<Step>)
    requires Distinct(files)
    ensures IsRun(files, rows0, steps) && Enabled(files, Final(files, rows0, steps), Unlock(0))
    ensures var st := Final(files, rows0, steps);
            && st.runners == map[0 := Runner(REAL, Leaving(true))]
            && Settled(st.db.rows, files, |files|) && st.db.ddl == Pending(rows0, files)
            && Next(files, st, Unlock(0)).lock == None
  {
    var before := ReachFile(files, rows0, |files|);
    var st := Final(files, rows0, before);
    Extend(files, rows0, before, Finish(0));
    steps := before + [Finish(0)];
    assert Front(steps) == before;
    var k := |before|;
    assert steps[k] == Finish(0) && steps[..k] == before;
    SuccessLasts(files, rows0, steps, k);
    ExactIffNoTear(files, rows0, before);
    RunKeepsInv(files, rows0, before);
    SqueezeOfDupFree(st.db.ddl);
  }

  /** Who writes rows or DDL is no dry run. */
  lemma DryRunsKeepTheDb(files: seq<File>, st: State, step: Step)
    requires Enabled(files, st, step) && LockOk(st)
    requires step.r in st.runners && st.runners[step.r].o.dryRun
    ensures Next(files, st, step).db == st.db
  {
    if step.Act? || step.ActUnanswered? {
      var x := st.runners[step.r];
      DryRunActsNot(files[x.phase.i], x.phase.row, x.o, st.db);
    }
  }

  /** The bookkeeping table has been created exactly when some runner, real or dry, has got past the lock. */
  lemma {:induction false} TableIffEntered(files: seq<File>, rows0: Rows, steps: seq<Step>)
    requires IsRun(files, rows0, steps)
    ensures Final(files, rows0, steps).table <==> exists k :: 0 <= k < |steps| && steps[k].Enter?
  {
    if steps != [] {
      TableIffEntered(files, rows0, Front(steps));
      if k :| 0 <= k < |steps| && steps[k].Enter? {
        assert k < |steps| - 1 ==> Front(steps)[k].Enter?;
      }
    }
  }

  /** So a dry run on its own creates it. */
  lemma DryRunCreatesTheTable(files: seq<File>, rows0: Rows)
    ensures var steps := [Start(0, Options(false, true)), Enter(0)];
            IsRun(files, rows0, steps) && Final(files, rows0, steps).table && Final(files, rows0, steps).db == Db(rows0, [])
  {
    var start := Start(0, Options(false, true));
    var a := Next(files, Initial(rows0), start);
    ExtendTwice(files, rows0, [], start, Enter(0), a, Next(files, a, Enter(0)));
    assert [] + [start, Enter(0)] == [start, Enter(0)];
  }
}
