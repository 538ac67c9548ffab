/**
  The advisory-lock singleton of `indexer/src/lock.ts`, as a transition system over any number of
  database sessions and any number of `acquireIndexerLock` calls.

  Every query is split into the moment the server executes it and the moment the client sees the
  answer, so a session may die, or an answer may get lost, at any point in between. A query the client
  has given up on may still be executed, and a destroyed client's session ends some time later.
 */
module IndexerLock {
  import opened Sequences

  type Id = nat

  /** A PostgreSQL session. `count` is the re-entrant count of the advisory lock in this session. The
      client of a closing session was destroyed, and the session is about to end. `leaked` is
      bookkeeping of the model, which LeakedIsCounted ties to the run. */
  datatype Session = Session(alive: bool, closing: bool, count: nat, leaked: nat)

  /** Where one call of `acquireIndexerLock` stands. */
  datatype Phase =
    | Connected                 // SET idle_session_timeout is outstanding
    | Trying                    // pg_try_advisory_lock sent, not yet executed
    | Tried(acquired: bool)     // executed by the server, answer on its way
    | Rejected(pending: bool)   // acquireIndexerLock threw; perhaps the server has yet to execute its query
    | Live                      // the handle was returned

  /** The heartbeat of a live handle: its timer, and the two queries of its task. */
  datatype Beat = NoTimer | Armed | Probing | Probed(acquired: bool) | Unprobing | Unprobed(ok: bool)

  /** The handle's `release()`. */
  datatype Release = NotCalled | Draining | Unlocking | Unlocked(ok: bool) | Settled

  /** The closure variables of one call, with two counters: how often the client was handed back to
      the pool, and how often `onLost` fired. */
  datatype Handle = Handle(
    sess: Id, phase: Phase, released: bool, held: bool, clientReleased: bool,
    beat: Beat, rel: Release, gaveBack: nat, lostCalls: nat)
  {
    predicate IsHeld() { phase.Live? && held && !released }

    predicate InsideHeartbeat() { phase.Live? && (beat == Probed(true) || beat == Unprobing) }
  }

  datatype State = State(sessions: map<Id, Session>, idle: set<Id>, handles: map<Id, Handle>)

  datatype Step =
    | Connect(h: Id, s: Id)
    | SetAnswered(h: Id)
    | AcquireError(h: Id)
    | ServerTry(h: Id)
    | ServerTriesLate(h: Id)
    | TryAnswered(h: Id)
    | TimerFires(h: Id)
    | ServerProbe(h: Id)
    | ProbeAnswered(h: Id)
    | ServerUnprobe(h: Id)
    | UnprobeAnswered(h: Id)
    | BeatError(h: Id)
    | CallRelease(h: Id)
    | DrainDone(h: Id)
    | ServerUnlock(h: Id)
    | UnlockAnswered(h: Id)
    | UnlockError(h: Id)
    | ServerStraggles(s: Id, lock: bool)
    | SessionDies(s: Id)

  // ----- the server side -----

  /** Whether the server grants the lock to session `s`: no other live session has it. */
  predicate Grantable(st: State, s: Id) {
    forall t | t in st.sessions && t != s :: !(st.sessions[t].alive && st.sessions[t].count > 0)
  }

  predicate LiveSession(st: State, s: Id) { s in st.sessions && st.sessions[s].alive }

  function SetSession(st: State, s: Id, r: Session): State { st.(sessions := st.sessions[s := r]) }

  function ServerLock(st: State, s: Id): State
    requires s in st.sessions
  {
    if Grantable(st, s)
    then SetSession(st, s, st.sessions[s].(count := st.sessions[s].count + 1))
    else st
  }

  function ServerRelease(st: State, s: Id): State
    requires s in st.sessions
  {
    var c := st.sessions[s].count;
    if c == 0 then st else SetSession(st, s, st.sessions[s].(count := c - 1))
  }

  /** A session that ends, however it ends, loses all its advisory locks. */
  function Kill(st: State, s: Id): State {
    if s in st.sessions then SetSession(st, s, Session(false, false, 0, 0)) else st
  }

  /** `client.release(true)` ends the connection; the server learns of it later. */
  function Close(st: State, s: Id): State {
    if s in st.sessions then SetSession(st, s, st.sessions[s].(closing := true)) else st
  }

  /** One more lock on `s`, whose answer nobody will see. */
  function Leak(st: State, s: Id): State
    requires s in st.sessions
  {
    SetSession(st, s, st.sessions[s].(count := st.sessions[s].count + 1, leaked := st.sessions[s].leaked + 1))
  }

  // ----- the client side -----

  function Put(st: State, h: Id, x: Handle): State { st.(handles := st.handles[h := x]) }

  /** `client.release()` during acquisition: back to the pool, whatever the session's state. */
  function GiveBackRejected(st: State, h: Id, x: Handle): State {
    Put(st, h, x.(phase := Rejected(x.phase.Trying?), gaveBack := x.gaveBack + 1)).(idle := st.idle + {x.sess})
  }

  /** `releaseClient(destroy)`. */
  function ReleaseClient(st: State, h: Id, x: Handle, destroy: bool): State {
    if x.clientReleased then Put(st, h, x)
    else
      var st' := Put(st, h, x.(clientReleased := true, gaveBack := x.gaveBack + 1));
      if destroy then Close(st', x.sess) else st'.(idle := st.idle + {x.sess})
  }

  /** The `finally` of the heartbeat task: re-arm the timer unless released or lost. */
  function AfterBeat(x: Handle): Handle {
    x.(beat := if x.released || !x.held then NoTimer else Armed)
  }

  /** `markLost`, followed by the task's `finally`. */
  function MarkLost(st: State, h: Id, x: Handle): State {
    if !x.held then Put(st, h, AfterBeat(x))
    else ReleaseClient(st, h, AfterBeat(x.(held := false, lostCalls := x.lostCalls + 1)), true)
  }

  predicate Enabled(st: State, step: Step) {
    match step
    case Connect(h, s) => h !in st.handles && (s in st.idle || s !in st.sessions)
    case SetAnswered(h) => h in st.handles && st.handles[h].phase.Connected? && LiveSession(st, st.handles[h].sess)
    case AcquireError(h) => h in st.handles && st.handles[h].phase in {Connected, Trying, Tried(true), Tried(false)}
    case ServerTry(h) => h in st.handles && st.handles[h].phase.Trying? && LiveSession(st, st.handles[h].sess)
    case ServerTriesLate(h) =>
      h in st.handles && st.handles[h].phase == Rejected(true) && LiveSession(st, st.handles[h].sess)
    case TryAnswered(h) => h in st.handles && st.handles[h].phase.Tried?
    case TimerFires(h) => h in st.handles && st.handles[h].phase.Live? && st.handles[h].beat.Armed?
    case ServerProbe(h) =>
      h in st.handles && st.handles[h].phase.Live? && st.handles[h].beat.Probing? && LiveSession(st, st.handles[h].sess)
    case ProbeAnswered(h) => h in st.handles && st.handles[h].phase.Live? && st.handles[h].beat.Probed?
    case ServerUnprobe(h) =>
      h in st.handles && st.handles[h].phase.Live? && st.handles[h].beat.Unprobing? && LiveSession(st, st.handles[h].sess)
    case UnprobeAnswered(h) => h in st.handles && st.handles[h].phase.Live? && st.handles[h].beat.Unprobed?
    case BeatError(h) =>
      h in st.handles && st.handles[h].phase.Live? && !st.handles[h].beat.NoTimer? && !st.handles[h].beat.Armed?
    case CallRelease(h) => h in st.handles && st.handles[h].phase.Live?
    case DrainDone(h) =>
      h in st.handles && st.handles[h].phase.Live? && st.handles[h].rel.Draining? && st.handles[h].beat.NoTimer?
    case ServerUnlock(h) =>
      h in st.handles && st.handles[h].phase.Live? && st.handles[h].rel.Unlocking? && LiveSession(st, st.handles[h].sess)
    case UnlockAnswered(h) => h in st.handles && st.handles[h].phase.Live? && st.handles[h].rel.Unlocked?
    case UnlockError(h) =>
      h in st.handles && st.handles[h].phase.Live? && (st.handles[h].rel.Unlocking? || st.handles[h].rel.Unlocked?)
    case ServerStraggles(s, _) => LiveSession(st, s) && st.sessions[s].closing
    case SessionDies(s) => s in st.sessions
  }

  function Next(st: State, step: Step): State
    requires Enabled(st, step)
  {
    match step
    case Connect(h, s) =>
      var x := Handle(s, Connected, false, false, false, NoTimer, NotCalled, 0, 0);
      State(if s in st.sessions then st.sessions else st.sessions[s := Session(true, false, 0, 0)],
            st.idle - {s}, st.handles[h := x])
    case SetAnswered(h) => Put(st, h, st.handles[h].(phase := Trying))
    case AcquireError(h) =>
      var x := st.handles[h];
      var st' := GiveBackRejected(st, h, x);
      if x.phase == Tried(true) && LiveSession(st, x.sess)
      then SetSession(st', x.sess, st.sessions[x.sess].(leaked := st.sessions[x.sess].leaked + 1))
      else st'
    case ServerTry(h) =>
      var x := st.handles[h];
      Put(ServerLock(st, x.sess), h, x.(phase := Tried(Grantable(st, x.sess))))
    case ServerTriesLate(h) =>
      var x := st.handles[h];
      Put(if Grantable(st, x.sess) then Leak(st, x.sess) else st, h, x.(phase := Rejected(false)))
    case TryAnswered(h) =>
      var x := st.handles[h];
      if x.phase.acquired then Put(st, h, x.(phase := Live, held := true, beat := Armed))
      else GiveBackRejected(st, h, x)
    case TimerFires(h) => Put(st, h, st.handles[h].(beat := Probing))
    case ServerProbe(h) =>
      var x := st.handles[h];
      Put(ServerLock(st, x.sess), h, x.(beat := Probed(Grantable(st, x.sess))))
    case ProbeAnswered(h) =>
      var x := st.handles[h];
      if x.beat.acquired then Put(st, h, x.(beat := Unprobing)) else MarkLost(st, h, x)
    case ServerUnprobe(h) =>
      var x := st.handles[h];
      Put(ServerRelease(st, x.sess), h, x.(beat := Unprobed(st.sessions[x.sess].count > 0)))
    case UnprobeAnswered(h) =>
      var x := st.handles[h];
      if x.beat.ok then Put(st, h, AfterBeat(x)) else MarkLost(st, h, x)
    case BeatError(h) => MarkLost(st, h, st.handles[h])
    case CallRelease(h) =>
      var x := st.handles[h];
      if x.released then st
      else Put(st, h, x.(released := true, rel := Draining, beat := if x.beat.Armed? then NoTimer else x.beat))
    case DrainDone(h) =>
      var x := st.handles[h];
      if !x.held then Put(st, h, x.(rel := Settled)) else Put(st, h, x.(held := false, rel := Unlocking))
    case ServerUnlock(h) =>
      var x := st.handles[h];
      Put(ServerRelease(st, x.sess), h, x.(rel := Unlocked(st.sessions[x.sess].count > 0)))
    case UnlockAnswered(h) =>
      var x := st.handles[h];
      ReleaseClient(st, h, x.(rel := Settled), !x.rel.ok)
    case UnlockError(h) => ReleaseClient(st, h, st.handles[h].(rel := Settled), true)
    case ServerStraggles(s, lock) => if lock then ServerLock(st, s) else ServerRelease(st, s)
    case SessionDies(s) => Kill(st, s)
  }

  // ----- runs -----

  function Initial(): State { State(map[], {}, map[]) }

  /** A run from the start: every step is enabled where it is taken. */
  predicate IsRun(steps: seq<Step>)
    decreases |steps|, 0
  {
    steps == [] || (IsRun(Front(steps)) && Enabled(Final(Front(steps)), Last(steps)))
  }

  function Final(steps: seq<Step>): State
    requires IsRun(steps)
    decreases |steps|, 1
  {
    if steps == [] then Initial() else Next(Final(Front(steps)), Last(steps))
  }

  // ----- the inductive invariant -----

  /** Whether the call still has its client. */
  predicate Owns(x: Handle) { x.gaveBack == 0 }

  /** The lock count a live session must have on account of the call that owns it. */
  function Justified(x: Handle): nat {
    match x.phase
    case Tried(a) => if a then 1 else 0
    case Live =>
      if x.rel.Unlocked? then 0 else if x.InsideHeartbeat() then 2 else 1
    case _ => 0
  }

  /** What the closure variables of one call say about each other. */
  predicate HandleOk(x: Handle) {
    && (x.gaveBack == if x.phase.Rejected? || x.clientReleased then 1 else 0)
    && (x.lostCalls <= 1 && (x.lostCalls == 1 ==> !x.held && x.clientReleased))
    && (!x.phase.Live? ==> !x.released && !x.held && !x.clientReleased && x.beat.NoTimer? && x.rel.NotCalled? && x.lostCalls == 0)
    && (x.phase.Live? ==>
          && (x.rel.NotCalled? <==> !x.released)
          && (x.held ==> !x.clientReleased && (x.rel.NotCalled? || x.rel.Draining?))
          && (!x.held ==> x.beat.NoTimer?)
          && (!x.held && !x.clientReleased ==> x.rel.Unlocking? || x.rel.Unlocked?)
          && (x.rel.Unlocking? || x.rel.Unlocked? ==> !x.held && !x.clientReleased)
          && (x.rel.Settled? ==> x.clientReleased)
          && (x.clientReleased ==> x.rel.Settled? || x.lostCalls == 1)
          && (x.beat.Armed? ==> !x.released)
          && (x.held && !x.released ==> !x.beat.NoTimer?))
  }

  /** A session that ends was neither drawn again nor left in the pool. */
  predicate ClosingApart(st: State) {
    forall s | s in st.sessions && st.sessions[s].closing ::
      s !in st.idle && forall h | h in st.handles && Owns(st.handles[h]) :: st.handles[h].sess != s
  }

  /** An owner never sees a refusal or a failed unlock while its session lives. */
  predicate AnswersOk(x: Handle) {
    && x.beat != Probed(false) && x.beat != Unprobed(false) && x.rel != Unlocked(false)
  }

  /** Every closure is consistent and refers to a known session. */
  predicate HandlesOk(st: State) {
    forall h | h in st.handles :: HandleOk(st.handles[h]) && st.handles[h].sess in st.sessions
  }

  /** No two calls share a client, and nobody's client is in the pool. */
  predicate OwnersApart(st: State) {
    && (forall h | h in st.handles && Owns(st.handles[h]) :: st.handles[h].sess !in st.idle)
    && (forall h, k | h in st.handles && k in st.handles && Owns(st.handles[h]) && Owns(st.handles[k]) ::
          st.handles[h].sess == st.handles[k].sess ==> h == k)
  }

  /** At most one live session has the lock. */
  predicate Exclusive(st: State) {
    forall s, t | s in st.sessions && t in st.sessions && st.sessions[s].alive && st.sessions[t].alive
                  && st.sessions[s].count > 0 && st.sessions[t].count > 0 :: s == t
  }

  /** A live session in the pool has no lock beyond the leaked ones. */
  predicate IdleClean(st: State) {
    forall s | s in st.idle :: s in st.sessions && (st.sessions[s].alive ==> st.sessions[s].count == st.sessions[s].leaked)
  }

  predicate Exact(x: Handle, r: Session) {
    r.alive ==> AnswersOk(x) && r.count == Justified(x) + r.leaked
  }

  /** A live session of a call has exactly the locks that the call's progress accounts for. */
  predicate OwnersExact(st: State) {
    forall h | h in st.handles && st.handles[h].sess in st.sessions && Owns(st.handles[h]) ::
      Exact(st.handles[h], st.sessions[st.handles[h].sess])
  }

  predicate OwnedBy(st: State, s: Id, h: Id) { h in st.handles && Owns(st.handles[h]) && st.handles[h].sess == s }

  predicate InUse(st: State, s: Id) { LiveSession(st, s) && !st.sessions[s].closing }

  /** No live client is lost: it is in the pool, a call has it, or it was destroyed. */
  ghost predicate NoneLost(st: State) {
    forall s | InUse(st, s) && s !in st.idle :: exists h :: OwnedBy(st, s, h)
  }

  ghost predicate Inv(st: State) {
    && HandlesOk(st) && OwnersApart(st) && ClosingApart(st) && Exclusive(st) && IdleClean(st) && OwnersExact(st)
    && NoneLost(st)
  }

  /** One owner changes its closure and its session, and perhaps hands the client back. */
  function Change(st: State, h: Id, x: Handle, r: Session, back: bool): State {
    State(st.sessions[x.sess := r], if back then st.idle + {x.sess} else st.idle, st.handles[h := x])
  }

  /** What such a change has to respect; it speaks of one call and one session only. */
  predicate Respectful(st: State, h: Id, x: Handle, r: Session, back: bool)
    requires h in st.handles && st.handles[h].sess in st.sessions
  {
    && HandleOk(x) && x.sess == st.handles[h].sess
    && (r.alive ==> st.sessions[x.sess].alive)
    && (r.alive && r.count > 0 ==> Grantable(st, x.sess))
    && (back ==> !Owns(x) && (r.alive ==> r.count == r.leaked))
    && (!back && !Owns(x) ==> !r.alive || r.closing)
    && (r.closing ==> !back && !Owns(x))
    && (Owns(x) ==> Exact(x, r))
  }

  lemma ChangeKeepsNoneLost(st: State, h: Id, x: Handle, r: Session, back: bool)
    requires HandlesOk(st) && NoneLost(st) && h in st.handles && Owns(st.handles[h]) && Respectful(st, h, x, r, back)
    ensures NoneLost(Change(st, h, x, r, back))
  {
    var st' := Change(st, h, x, r, back);
    forall s | InUse(st', s) && s !in st'.idle
      ensures exists k :: OwnedBy(st', s, k)
    {
      if s == x.sess {
        assert OwnedBy(st', s, h);
      } else {
        var k :| OwnedBy(st, s, k);
        assert OwnedBy(st', s, k);
      }
    }
  }

  lemma ChangeKeepsInv(st: State, h: Id, x: Handle, r: Session, back: bool)
    requires Inv(st) && h in st.handles && Owns(st.handles[h]) && Respectful(st, h, x, r, back)
    ensures Inv(Change(st, h, x, r, back))
  {
    ChangeKeepsNoneLost(st, h, x, r, back);
    var st' := Change(st, h, x, r, back);
    assert HandlesOk(st') && OwnersApart(st') && ClosingApart(st');
    assert Exclusive(st');
    assert IdleClean(st') && OwnersExact(st');
  }

  /** A call that no longer has its client changes its closure only. */
  lemma BystanderKeepsInv(st: State, h: Id, x: Handle)
    requires Inv(st) && h in st.handles && !Owns(st.handles[h])
    requires HandleOk(x) && x.sess == st.handles[h].sess && !Owns(x)
    ensures Inv(Put(st, h, x))
  {
    var st' := Put(st, h, x);
    assert NoneLost(st') by {
      forall s | InUse(st', s) && s !in st'.idle
        ensures exists k :: OwnedBy(st', s, k)
      {
        var k :| OwnedBy(st, s, k);
        assert OwnedBy(st', s, k);
      }
    }
  }

  lemma ConnectKeepsInv(st: State, h: Id, s: Id)
    requires Inv(st) && Enabled(st, Connect(h, s))
    ensures Inv(Next(st, Connect(h, s)))
  {
    ConnectKeepsNoneLost(st, h, s);
    ConnectKeepsApart(st, h, s);
    ConnectKeepsCounts(st, h, s);
  }

  lemma ConnectKeepsApart(st: State, h: Id, s: Id)
    requires HandlesOk(st) && OwnersApart(st) && ClosingApart(st) && Enabled(st, Connect(h, s))
    ensures var st' := Next(st, Connect(h, s)); HandlesOk(st') && OwnersApart(st') && ClosingApart(st')
  {
    assert forall k | k in st.handles && Owns(st.handles[k]) :: st.handles[k].sess != s;
  }

  lemma ConnectKeepsCounts(st: State, h: Id, s: Id)
    requires HandlesOk(st) && OwnersApart(st) && Exclusive(st) && IdleClean(st) && OwnersExact(st)
    requires Enabled(st, Connect(h, s))
    ensures var st' := Next(st, Connect(h, s)); Exclusive(st') && IdleClean(st') && OwnersExact(st')
  {
    var st' := Next(st, Connect(h, s));
    assert forall k | k in st.handles && Owns(st.handles[k]) :: st.handles[k].sess != s;
    forall k | k in st'.handles && st'.handles[k].sess in st'.sessions && Owns(st'.handles[k])
      ensures Exact(st'.handles[k], st'.sessions[st'.handles[k].sess])
    {
      if k != h {
        assert Exact(st.handles[k], st.sessions[st.handles[k].sess]);
      }
    }
  }

  lemma ConnectKeepsNoneLost(st: State, h: Id, s: Id)
    requires NoneLost(st) && Enabled(st, Connect(h, s))
    ensures NoneLost(Next(st, Connect(h, s)))
  {
    var st' := Next(st, Connect(h, s));
    forall t | InUse(st', t) && t !in st'.idle
      ensures exists k :: OwnedBy(st', t, k)
    {
      if t == s {
        assert OwnedBy(st', t, h);
      } else {
        var k :| OwnedBy(st, t, k);
        assert OwnedBy(st', t, k);
      }
    }
  }

  lemma DeathKeepsInv(st: State, s: Id)
    requires Inv(st) && s in st.sessions
    ensures Inv(Kill(st, s))
  {
    var st' := Kill(st, s);
    assert NoneLost(st') by {
      forall t | InUse(st', t) && t !in st'.idle
        ensures exists k :: OwnedBy(st', t, k)
      {
        var k :| OwnedBy(st, t, k);
        assert OwnedBy(st', t, k);
      }
    }
  }

  /** A session changes on the server only: it is one that nobody has, or gets one more leaked lock. */
  lemma ServerKeepsInv(st: State, s: Id, r: Session)
    requires Inv(st) && LiveSession(st, s) && r.alive && r.closing == st.sessions[s].closing
    requires r.count > st.sessions[s].count ==> Grantable(st, s)
    requires !r.closing ==> r.count - r.leaked == st.sessions[s].count - st.sessions[s].leaked
    ensures Inv(SetSession(st, s, r))
  {
    var st' := SetSession(st, s, r);
    assert NoneLost(st') by {
      forall t | InUse(st', t) && t !in st'.idle
        ensures exists k :: OwnedBy(st', t, k)
      {
        assert InUse(st, t);
        var k :| OwnedBy(st, t, k);
        assert OwnedBy(st', t, k);
      }
    }
    assert OwnersExact(st') by {
      forall k | k in st'.handles && st'.handles[k].sess in st'.sessions && Owns(st'.handles[k])
        ensures Exact(st'.handles[k], st'.sessions[st'.handles[k].sess])
      {
        assert Exact(st.handles[k], st.sessions[st.handles[k].sess]);
      }
    }
  }

  lemma LeakKeepsInv(st: State, s: Id)
    requires Inv(st) && LiveSession(st, s) && Grantable(st, s)
    ensures Inv(Leak(st, s))
  {
    var r := st.sessions[s].(count := st.sessions[s].count + 1, leaked := st.sessions[s].leaked + 1);
    ServerKeepsInv(st, s, r);
    assert Leak(st, s) == SetSession(st, s, r);
  }

  lemma LateTryKeepsInv(st: State, h: Id)
    requires Inv(st) && Enabled(st, ServerTriesLate(h))
    ensures Inv(Next(st, ServerTriesLate(h)))
  {
    var x := st.handles[h];
    assert HandleOk(x);
    var before := st;
    if Grantable(st, x.sess) {
      LeakKeepsInv(st, x.sess);
      before := Leak(st, x.sess);
    }
    BystanderKeepsInv(before, h, x.(phase := Rejected(false)));
    assert Next(st, ServerTriesLate(h)) == Put(before, h, x.(phase := Rejected(false)));
  }

  lemma ServerLockKeepsInv(st: State, s: Id)
    requires Inv(st) && LiveSession(st, s) && st.sessions[s].closing
    ensures Inv(ServerLock(st, s))
  {
    if Grantable(st, s) {
      ServerKeepsInv(st, s, st.sessions[s].(count := st.sessions[s].count + 1));
    }
  }

  lemma ServerReleaseKeepsInv(st: State, s: Id)
    requires Inv(st) && LiveSession(st, s) && st.sessions[s].closing
    ensures Inv(ServerRelease(st, s))
  {
    if st.sessions[s].count > 0 {
      ServerKeepsInv(st, s, st.sessions[s].(count := st.sessions[s].count - 1));
    }
  }

  predicate OfServer(step: Step) { step.ServerStraggles? || step.SessionDies? || step.ServerTriesLate? }

  /** The call that takes a step. */
  function Actor(step: Step): Id { if step.ServerStraggles? || step.SessionDies? then 0 else step.h }

  /** The call that takes the step has its client, and its session is as it should be. */
  predicate OwnerReady(st: State, step: Step)
    requires Enabled(st, step) && !step.Connect? && !OfServer(step)
  {
    var y := st.handles[Actor(step)];
    && Owns(y) && HandleOk(y) && y.sess in st.sessions && y.sess !in st.idle && !st.sessions[y.sess].closing
    && Exact(y, st.sessions[y.sess])
    && (st.sessions[y.sess].alive && st.sessions[y.sess].count > 0 ==> Grantable(st, y.sess))
  }

  predicate Acquiring(step: Step) { step.SetAnswered? || step.AcquireError? || step.ServerTry? || step.TryAnswered? }

  predicate Beating(step: Step) {
    step.TimerFires? || step.ServerProbe? || step.ProbeAnswered? || step.ServerUnprobe? || step.UnprobeAnswered? || step.BeatError?
  }

  /** A step of an owner is a respectful change of its own closure and session. */
  lemma OwnerStep(st: State, step: Step) returns (x: Handle, r: Session, back: bool)
    requires Enabled(st, step) && !step.Connect? && !OfServer(step) && OwnerReady(st, step)
    ensures Respectful(st, Actor(step), x, r, back)
    ensures Next(st, step) == Change(st, Actor(step), x, r, back)
  {
    if Acquiring(step) {
      x, r, back := AcquiringStep(st, step);
    } else if Beating(step) {
      x, r, back := BeatingStep(st, step);
    } else {
      x, r, back := ReleasingStep(st, step);
    }
  }

  lemma AcquiringStep(st: State, step: Step) returns (x: Handle, r: Session, back: bool)
    requires Enabled(st, step) && Acquiring(step) && OwnerReady(st, step)
    ensures Respectful(st, Actor(step), x, r, back)
    ensures Next(st, step) == Change(st, Actor(step), x, r, back)
  {
    var st', s := Next(st, step), st.handles[Actor(step)].sess;
    x, r, back := st'.handles[Actor(step)], st'.sessions[s], s in st'.idle;
    assert st'.sessions == st.sessions[s := r];
  }

  lemma BeatingStep(st: State, step: Step) returns (x: Handle, r: Session, back: bool)
    requires Enabled(st, step) && Beating(step) && OwnerReady(st, step)
    ensures Respectful(st, Actor(step), x, r, back)
    ensures Next(st, step) == Change(st, Actor(step), x, r, back)
  {
    var st', s := Next(st, step), st.handles[Actor(step)].sess;
    x, r, back := st'.handles[Actor(step)], st'.sessions[s], s in st'.idle;
    assert st'.sessions == st.sessions[s := r];
  }

  lemma ReleasingStep(st: State, step: Step) returns (x: Handle, r: Session, back: bool)
    requires Enabled(st, step) && !step.Connect? && !OfServer(step) && !Acquiring(step) && !Beating(step)
    requires OwnerReady(st, step)
    ensures Respectful(st, Actor(step), x, r, back)
    ensures Next(st, step) == Change(st, Actor(step), x, r, back)
  {
    var st', s := Next(st, step), st.handles[Actor(step)].sess;
    x, r, back := st'.handles[Actor(step)], st'.sessions[s], s in st'.idle;
    assert st'.sessions == st.sessions[s := r];
  }

  lemma ServerStepKeepsInv(st: State, step: Step)
    requires Inv(st) && Enabled(st, step) && OfServer(step)
    ensures Inv(Next(st, step))
  {
    match step
    case SessionDies(s) => DeathKeepsInv(st, s);
    case ServerTriesLate(h) => LateTryKeepsInv(st, h);
    case ServerStraggles(s, lock) =>
      if lock {
        ServerLockKeepsInv(st, s);
      } else {
        ServerReleaseKeepsInv(st, s);
      }
  }

  lemma BystanderStep(st: State, step: Step)
    requires Inv(st) && Enabled(st, step) && !step.Connect? && !OfServer(step) && !Owns(st.handles[Actor(step)])
    ensures Inv(Next(st, step))
  {
    var h := Actor(step);
    assert HandleOk(st.handles[h]);
    assert Next(st, step) == Put(st, h, Next(st, step).handles[h]);
    BystanderKeepsInv(st, h, Next(st, step).handles[h]);
  }

  lemma StepKeepsInv(st: State, step: Step)
    requires Inv(st) && Enabled(st, step)
    ensures Inv(Next(st, step))
  {
    if step.Connect? {
      ConnectKeepsInv(st, step.h, step.s);
    } else if OfServer(step) {
      ServerStepKeepsInv(st, step);
    } else if Owns(st.handles[Actor(step)]) {
      var x, r, back := OwnerStep(st, step);
      ChangeKeepsInv(st, Actor(step), x, r, back);
    } else {
      BystanderStep(st, step);
    }
  }

  // ----- runs keep the invariant -----

  lemma {:induction false} RunKeepsInv(steps: seq<Step>)
    requires IsRun(steps)
    ensures Inv(Final(steps))
  {
    if steps != [] {
      RunKeepsInv(Front(steps));
      StepKeepsInv(Final(Front(steps)), Last(steps));
    }
  }

  lemma HeldHasCount(st: State, h: Id)
    requires Inv(st) && h in st.handles && st.handles[h].IsHeld() && LiveSession(st, st.handles[h].sess)
    ensures st.sessions[st.handles[h].sess].count > 0
  {
    assert Exact(st.handles[h], st.sessions[st.handles[h].sess]);
  }

  // ----- lost grants -----

  /** A step in which session `s` gets a lock that no call knows of: an acquisition fails after the
      server granted the lock, or the server grants it after the acquisition failed. */
  predicate LosesGrant(st: State, step: Step, s: Id)
    requires Enabled(st, step)
  {
    match step
    case AcquireError(h) => st.handles[h].sess == s && st.handles[h].phase == Tried(true) && LiveSession(st, s)
    case ServerTriesLate(h) => st.handles[h].sess == s && Grantable(st, s)
    case _ => false
  }

  /** How many such steps a run has. */
  function LostGrants(steps: seq<Step>, s: Id): nat
    requires IsRun(steps)
  {
    if steps == [] then 0
    else LostGrants(Front(steps), s) + if LosesGrant(Final(Front(steps)), Last(steps), s) then 1 else 0
  }

  /** What a step does to the leaked locks of one session. */
  predicate LeakCounted(st: State, step: Step, s: Id)
    requires Enabled(st, step)
  {
    var st' := Next(st, step);
    if s !in st'.sessions then s !in st.sessions && !LosesGrant(st, step, s)
    else if s !in st.sessions then st'.sessions[s].leaked == 0 && !LosesGrant(st, step, s)
    else st'.sessions[s].alive ==>
           && st.sessions[s].alive
           && st'.sessions[s].leaked == st.sessions[s].leaked + if LosesGrant(st, step, s) then 1 else 0
  }

  lemma AcquiringLeaks(st: State, step: Step, s: Id)
    requires Enabled(st, step) && HandlesOk(st) && (Acquiring(step) || step.ServerTriesLate?)
    ensures LeakCounted(st, step, s)
  {
    assert st.handles[step.h].sess in st.sessions;
  }

  lemma BeatingLeaksNothing(st: State, step: Step, s: Id)
    requires Enabled(st, step) && HandlesOk(st) && Beating(step)
    ensures LeakCounted(st, step, s)
  {
    assert st.handles[step.h].sess in st.sessions;
  }

  lemma LeakStep(st: State, step: Step, s: Id)
    requires Enabled(st, step) && HandlesOk(st)
    ensures LeakCounted(st, step, s)
  {
    if Acquiring(step) || step.ServerTriesLate? {
      AcquiringLeaks(st, step, s);
    } else if Beating(step) {
      BeatingLeaksNothing(st, step, s);
    }
  }

  /** The leaked locks of a live session are the grants the run lost on it: whatever else its calls did,
      heartbeats, releases, failures, left no lock behind and took none of the leaked ones away. */
  lemma {:induction false} LeakedIsCounted(steps: seq<Step>, s: Id)
    requires IsRun(steps)
    ensures LiveSession(Final(steps), s) ==> Final(steps).sessions[s].leaked == LostGrants(steps, s)
    ensures s !in Final(steps).sessions ==> LostGrants(steps, s) == 0
  {
    if steps != [] {
      LeakedIsCounted(Front(steps), s);
      RunKeepsInv(Front(steps));
      LeakStep(Final(Front(steps)), Last(steps), s);
    }
  }

  // ----- what every run guarantees -----

  /** A handle that reports itself held on a live session is the one holder: its session's count is 1
      outside a heartbeat and 2 inside one, plus the number of grants the run lost on that session, and
      every other live session's count is 0. */
  lemma HolderIsUniqueAndExact(steps: seq<Step>, h: Id)
    requires IsRun(steps) && h in Final(steps).handles && Final(steps).handles[h].IsHeld()
    requires LiveSession(Final(steps), Final(steps).handles[h].sess)
    ensures var st := Final(steps); var x := st.handles[h];
            && st.sessions[x.sess].count == (if x.InsideHeartbeat() then 2 else 1) + LostGrants(steps, x.sess)
            && (forall t | t in st.sessions && t != x.sess && st.sessions[t].alive :: st.sessions[t].count == 0)
            && (forall k | k in st.handles && st.handles[k].IsHeld() && LiveSession(st, st.handles[k].sess) :: k == h)
  {
    RunKeepsInv(steps);
    var st := Final(steps);
    LeakedIsCounted(steps, st.handles[h].sess);
    assert Exact(st.handles[h], st.sessions[st.handles[h].sess]);
    forall k | k in st.handles && st.handles[k].IsHeld() && LiveSession(st, st.handles[k].sess) ensures k == h {
      assert HandleOk(st.handles[k]) && HandleOk(st.handles[h]);
      HeldHasCount(st, k);
    }
  }

  lemma AtMostOneHolder(steps: seq<Step>, s: Id, t: Id)
    requires IsRun(steps) && LiveSession(Final(steps), s) && LiveSession(Final(steps), t)
    requires Final(steps).sessions[s].count > 0 && Final(steps).sessions[t].count > 0
    ensures s == t
  {
    RunKeepsInv(steps);
  }

  /** Each call hands its client back at most once, and has done so exactly when it was refused, was
      released or lost the lock; `onLost` fires at most once, and never on a call that still counts
      itself as the holder. */
  lemma ClientGivenBackOnce(steps: seq<Step>, h: Id)
    requires IsRun(steps) && h in Final(steps).handles
    ensures var x := Final(steps).handles[h];
            && x.gaveBack <= 1 && x.lostCalls <= 1
            && (x.gaveBack == 1 <==> x.phase.Rejected? || x.rel.Settled? || x.lostCalls == 1)
            && (x.gaveBack == 1 ==> !x.held)
            && (x.lostCalls == 1 ==> !x.IsHeld())
  {
    RunKeepsInv(steps);
    assert HandleOk(Final(steps).handles[h]);
  }

  /** Whoever draws a live client from the pool finds as many locks on it as the run lost grants on it,
      and no live client ever gets lost: outside the pool, some unfinished call has it, or it was
      destroyed. */
  lemma PooledClientsAreClean(steps: seq<Step>, s: Id)
    requires IsRun(steps) && InUse(Final(steps), s)
    ensures var st := Final(steps);
            if s in st.idle then st.sessions[s].count == LostGrants(steps, s)
            else exists h :: OwnedBy(st, s, h)
  {
    RunKeepsInv(steps);
    LeakedIsCounted(steps, s);
  }

  /** The call gives its client up in this step, and the client's session is alive. */
  predicate GivesUp(st: State, step: Step)
    requires Enabled(st, step)
  {
    && !step.Connect? && !OfServer(step) && LiveSession(st, st.handles[Actor(step)].sess)
    && st.handles[Actor(step)].gaveBack < Next(st, step).handles[Actor(step)].gaveBack
  }

  /** Where a live client goes: back to the pool, or away for good. */
  predicate Pooled(st: State, s: Id) { s in st.idle && LiveSession(st, s) && !st.sessions[s].closing }

  predicate Destroyed(st: State, s: Id) { s !in st.idle && LiveSession(st, s) && st.sessions[s].closing }

  lemma GivenUp(st: State, step: Step)
    requires Enabled(st, step) && GivesUp(st, step) && OwnerReady(st, step)
    ensures var st', s := Next(st, step), st.handles[Actor(step)].sess;
            if step.TryAnswered? || step.AcquireError? || step.UnlockAnswered? then Pooled(st', s)
            else (step.ProbeAnswered? || step.UnprobeAnswered? || step.BeatError? || step.UnlockError?) && Destroyed(st', s)
    ensures step.UnlockAnswered? ==>
              var s := st.handles[Actor(step)].sess; Next(st, step).sessions[s].count == st.sessions[s].leaked
  {
  }

  /** When a call is over, its live client goes back to the pool after a refusal, a failed acquisition or an
      ordinary release, and away for good after a heartbeat that failed or a release that did. An ordinary
      release never meets a failed unlock, and leaves no lock but those of lost grants. */
  lemma WhereClientsGo(steps: seq<Step>, step: Step)
    requires IsRun(steps) && Enabled(Final(steps), step) && GivesUp(Final(steps), step)
    ensures var st', s := Next(Final(steps), step), Final(steps).handles[Actor(step)].sess;
            && (Pooled(st', s) <==> step.TryAnswered? || step.AcquireError? || step.UnlockAnswered?)
            && (Destroyed(st', s) <==> step.ProbeAnswered? || step.UnprobeAnswered? || step.BeatError? || step.UnlockError?)
            && (step.UnlockAnswered? ==> st'.sessions[s].count == LostGrants(steps, s))
  {
    RunKeepsInv(steps);
    var st, h := Final(steps), Actor(step);
    OwnerIsReady(st, step);
    GivenUp(st, step);
    LeakedIsCounted(steps, st.handles[h].sess);
  }

  lemma OwnerIsReady(st: State, step: Step)
    requires Inv(st) && Enabled(st, step) && GivesUp(st, step)
    ensures OwnerReady(st, step)
  {
    var x := st.handles[Actor(step)];
    assert HandleOk(x) && HandleOk(Next(st, step).handles[Actor(step)]) by {
      StepKeepsInv(st, step);
    }
    assert Exact(x, st.sessions[x.sess]);
  }

  // ----- undisturbed -----

  /** A call that holds the lock, its timer armed, on a live session. */
  predicate Holding(st: State, h: Id) {
    && h in st.handles && st.handles[h].IsHeld() && st.handles[h].beat.Armed?
    && LiveSession(st, st.handles[h].sess) && !st.sessions[st.handles[h].sess].closing
  }

  /** The steps of a heartbeat's two queries. */
  function ProbeSteps(h: Id): seq<Step> { [TimerFires(h), ServerProbe(h), ProbeAnswered(h)] }

  function UnprobeSteps(h: Id): seq<Step> { [ServerUnprobe(h), UnprobeAnswered(h)] }

  /** The steps of `release()`: waiting for the heartbeat, and the unlock. */
  function DrainSteps(h: Id): seq<Step> { [CallRelease(h), DrainDone(h)] }

  function UnlockSteps(h: Id): seq<Step> { [ServerUnlock(h), UnlockAnswered(h)] }

  /** The state in the middle of a heartbeat, between its two queries. */
  function MidBeat(st: State, h: Id): State
    requires Holding(st, h)
  {
    var s := st.handles[h].sess;
    Put(SetSession(st, s, st.sessions[s].(count := st.sessions[s].count + 1)), h, st.handles[h].(beat := Unprobing))
  }

  lemma ProbeStates(st: State, h: Id) returns (a: State, b: State)
    requires Holding(st, h) && Grantable(st, st.handles[h].sess)
    ensures Leads(st, TimerFires(h), a) && Leads(a, ServerProbe(h), b) && Leads(b, ProbeAnswered(h), MidBeat(st, h))
  {
    a := Next(st, TimerFires(h));
    b := ProbeState(a, h);
    assert Next(b, ProbeAnswered(h)).handles == MidBeat(st, h).handles;
  }

  lemma UnprobeStates(st: State, h: Id) returns (d: State)
    requires Holding(st, h) && HandleOk(st.handles[h])
    ensures Leads(MidBeat(st, h), ServerUnprobe(h), d) && Leads(d, UnprobeAnswered(h), st)
  {
    d := Next(MidBeat(st, h), ServerUnprobe(h));
    assert d.sessions == st.sessions;
    assert Next(d, UnprobeAnswered(h)).handles == st.handles;
  }

  lemma ProbeState(a: State, h: Id) returns (b: State)
    requires Enabled(a, ServerProbe(h)) && Grantable(a, a.handles[h].sess)
    ensures b == Next(a, ServerProbe(h))
    ensures var s := a.handles[h].sess;
            b == Put(SetSession(a, s, a.sessions[s].(count := a.sessions[s].count + 1)), h, a.handles[h].(beat := Probed(true)))
  {
    b := Next(a, ServerProbe(h));
  }

  lemma HolderIsGrantable(steps: seq<Step>, h: Id)
    requires IsRun(steps) && Holding(Final(steps), h)
    ensures var st := Final(steps);
            && HandleOk(st.handles[h]) && Grantable(st, st.handles[h].sess) && st.sessions[st.handles[h].sess].count > 0
  {
    RunKeepsInv(steps);
    assert HandleOk(Final(steps).handles[h]);
    HeldHasCount(Final(steps), h);
  }

  predicate Leads(st: State, step: Step, st': State) { Enabled(st, step) && Next(st, step) == st' }

  lemma ExtendTo(steps: seq<Step>, step: Step, a: State)
    requires IsRun(steps) && Leads(Final(steps), step, a)
    ensures IsRun(steps + [step]) && Final(steps + [step]) == a
  {
    Extend(steps, step);
  }

  lemma ExtendToTwo(steps: seq<Step>, more: seq<Step>, a: State, b: State)
    requires IsRun(steps) && |more| == 2 && Leads(Final(steps), more[0], a) && Leads(a, more[1], b)
    ensures IsRun(steps + more) && Final(steps + more) == b
  {
    ExtendTo(steps, more[0], a);
    ExtendTo(steps + [more[0]], more[1], b);
    assert steps + more == steps + [more[0]] + [more[1]];
  }

  lemma ProbeRun(steps: seq<Step>, h: Id)
    requires IsRun(steps) && Holding(Final(steps), h) && Grantable(Final(steps), Final(steps).handles[h].sess)
    ensures IsRun(steps + ProbeSteps(h)) && Final(steps + ProbeSteps(h)) == MidBeat(Final(steps), h)
  {
    var a, b := ProbeStates(Final(steps), h);
    ExtendToTwo(steps, [TimerFires(h), ServerProbe(h)], a, b);
    ExtendTo(steps + [TimerFires(h), ServerProbe(h)], ProbeAnswered(h), MidBeat(Final(steps), h));
    assert steps + ProbeSteps(h) == steps + [TimerFires(h), ServerProbe(h)] + [ProbeAnswered(h)];
  }

  lemma UnprobeRun(steps: seq<Step>, st: State, h: Id)
    requires IsRun(steps) && Holding(st, h) && HandleOk(st.handles[h]) && Final(steps) == MidBeat(st, h)
    ensures IsRun(steps + UnprobeSteps(h)) && Final(steps + UnprobeSteps(h)) == st
  {
    var d := UnprobeStates(st, h);
    ExtendToTwo(steps, UnprobeSteps(h), d, st);
  }

  /** A heartbeat in which nothing fails changes nothing: the lock is probed, given back, and still held, and
      the timer is armed again. */
  lemma HeartbeatIsNeutral(steps: seq<Step>, h: Id)
    requires IsRun(steps) && Holding(Final(steps), h)
    ensures IsRun(steps + ProbeSteps(h) + UnprobeSteps(h)) && Final(steps + ProbeSteps(h) + UnprobeSteps(h)) == Final(steps)
  {
    HolderIsGrantable(steps, h);
    ProbeRun(steps, h);
    UnprobeRun(steps + ProbeSteps(h), Final(steps), h);
  }

  /** The state after an ordinary release: one lock less, the client in the pool, the call over. */
  function Released(st: State, h: Id): State
    requires Holding(st, h) && st.sessions[st.handles[h].sess].count > 0
  {
    var x := st.handles[h];
    var r := st.sessions[x.sess];
    State(st.sessions[x.sess := r.(count := r.count - 1)], st.idle + {x.sess},
          st.handles[h := x.(released := true, held := false, clientReleased := true, beat := NoTimer, rel := Settled,
                             gaveBack := x.gaveBack + 1)])
  }

  /** The state in which the unlock is sent. */
  function Unlocks(st: State, h: Id): State
    requires Holding(st, h)
  {
    Put(st, h, st.handles[h].(released := true, held := false, beat := NoTimer, rel := Unlocking))
  }

  lemma DrainStates(st: State, h: Id) returns (a: State)
    requires Holding(st, h) && HandleOk(st.handles[h])
    ensures Leads(st, CallRelease(h), a) && Leads(a, DrainDone(h), Unlocks(st, h))
  {
    a := Next(st, CallRelease(h));
    assert Next(a, DrainDone(h)).handles == Unlocks(st, h).handles;
  }

  lemma UnlockStates(st: State, h: Id) returns (c: State)
    requires Holding(st, h) && HandleOk(st.handles[h]) && st.sessions[st.handles[h].sess].count > 0
    ensures Leads(Unlocks(st, h), ServerUnlock(h), c) && Leads(c, UnlockAnswered(h), Released(st, h))
  {
    c := Next(Unlocks(st, h), ServerUnlock(h));
    assert Next(c, UnlockAnswered(h)).handles == Released(st, h).handles;
  }

  lemma DrainRun(steps: seq<Step>, h: Id)
    requires IsRun(steps) && Holding(Final(steps), h) && HandleOk(Final(steps).handles[h])
    ensures IsRun(steps + DrainSteps(h)) && Final(steps + DrainSteps(h)) == Unlocks(Final(steps), h)
  {
    var a := DrainStates(Final(steps), h);
    ExtendToTwo(steps, DrainSteps(h), a, Unlocks(Final(steps), h));
  }

  lemma UnlockRun(steps: seq<Step>, st: State, h: Id)
    requires Holding(st, h) && HandleOk(st.handles[h]) && st.sessions[st.handles[h].sess].count > 0
    requires IsRun(steps) && Final(steps) == Unlocks(st, h)
    ensures IsRun(steps + UnlockSteps(h)) && Final(steps + UnlockSteps(h)) == Released(st, h)
  {
    var c := UnlockStates(st, h);
    ExtendToTwo(steps, UnlockSteps(h), c, Released(st, h));
  }

  /** `release()` of a holder in which nothing fails gives back its lock and its client. */
  lemma ReleaseGivesBack(steps: seq<Step>, h: Id)
    requires IsRun(steps) && Holding(Final(steps), h)
    ensures Final(steps).sessions[Final(steps).handles[h].sess].count > 0
    ensures IsRun(steps + DrainSteps(h) + UnlockSteps(h))
    ensures Final(steps + DrainSteps(h) + UnlockSteps(h)) == Released(Final(steps), h)
  {
    HolderIsGrantable(steps, h);
    DrainRun(steps, h);
    UnlockRun(steps + DrainSteps(h), Final(steps), h);
  }

  /** After a loss `release()` has nothing left to do: it touches no session. */
  lemma ReleaseAfterLoss(st: State, h: Id)
    requires h in st.handles && st.handles[h].phase.Live? && HandleOk(st.handles[h])
    requires st.handles[h].lostCalls == 1 && !st.handles[h].released
    ensures Enabled(st, CallRelease(h)) && Enabled(Next(st, CallRelease(h)), DrainDone(h))
    ensures var st' := Next(Next(st, CallRelease(h)), DrainDone(h));
            st'.sessions == st.sessions && st'.idle == st.idle && st'.handles[h].rel == Settled
  {
  }

  /** Some query of the call is outstanding. */
  predicate Outstanding(x: Handle) {
    || x.phase.Connected? || x.phase.Trying? || x.phase.Tried?
    || (x.phase.Live? && (x.beat.Probing? || x.beat.Probed? || x.beat.Unprobing? || x.beat.Unprobed?))
    || (x.phase.Live? && (x.rel.Unlocking? || x.rel.Unlocked?))
  }

  /** Any outstanding query may fail, any session may die, and an acquisition that failed before its query
      was executed may still see it executed. */
  lemma FaultsAnywhere(st: State, h: Id)
    requires h in st.handles && Outstanding(st.handles[h]) && st.handles[h].sess in st.sessions
    ensures Enabled(st, AcquireError(h)) || Enabled(st, BeatError(h)) || Enabled(st, UnlockError(h))
    ensures Enabled(st, SessionDies(st.handles[h].sess))
    ensures st.handles[h].phase.Trying? && LiveSession(st, st.handles[h].sess) ==>
              Enabled(Next(st, AcquireError(h)), ServerTriesLate(h))
  {
  }

  lemma LossStep(st: State, step: Step, h: Id)
    requires Enabled(st, step) && h in st.handles && st.handles[h].lostCalls == 0
    requires Owns(st.handles[h]) && st.handles[h].sess in st.sessions ==> Exact(st.handles[h], st.sessions[st.handles[h].sess])
    requires HandleOk(st.handles[h]) && st.handles[h].sess in st.sessions
    requires h in Next(st, step).handles && Next(st, step).handles[h].lostCalls == 1
    ensures step == BeatError(h) || !LiveSession(st, st.handles[h].sess)
  {
    assert Beating(step) && step.h == h;
  }

  lemma SessStep(st: State, step: Step, h: Id)
    requires Enabled(st, step) && h in st.handles
    ensures h in Next(st, step).handles && Next(st, step).handles[h].sess == st.handles[h].sess
  {
  }

  lemma DeathStep(st: State, step: Step, s: Id)
    requires Enabled(st, step) && HandlesOk(st) && s in st.sessions
    ensures s in Next(st, step).sessions
    ensures LiveSession(st, s) && !LiveSession(Next(st, step), s) ==> step == SessionDies(s)
  {
    if Acquiring(step) || step.ServerTriesLate? {
      assert st.handles[step.h].sess in st.sessions;
    } else if Beating(step) {
      assert st.handles[step.h].sess in st.sessions;
    }
  }

  lemma {:induction false} DeadHasDied(steps: seq<Step>, s: Id)
    requires IsRun(steps) && s in Final(steps).sessions && !LiveSession(Final(steps), s)
    ensures SessionDies(s) in steps
  {
    if steps != [] {
      var st := Final(Front(steps));
      assert steps == Front(steps) + [Last(steps)];
      RunKeepsInv(Front(steps));
      if s in st.sessions && !st.sessions[s].alive {
        DeadHasDied(Front(steps), s);
      } else if s in st.sessions {
        DeathStep(st, Last(steps), s);
      } else {
        BornAlive(st, Last(steps), s);
      }
    }
  }

  lemma BornAlive(st: State, step: Step, s: Id)
    requires Enabled(st, step) && HandlesOk(st) && s !in st.sessions && s in Next(st, step).sessions
    ensures LiveSession(Next(st, step), s)
  {
    LeakStep(st, step, s);
    assert step.Connect?;
  }

  /** No handle is lost without a cause: a heartbeat query of its own failed, or its session died. */
  lemma {:induction false} LostOnlyByFault(steps: seq<Step>, h: Id)
    requires IsRun(steps) && h in Final(steps).handles && Final(steps).handles[h].lostCalls == 1
    ensures BeatError(h) in steps || SessionDies(Final(steps).handles[h].sess) in steps
  {
    var st, step := Final(Front(steps)), Last(steps);
    assert steps == Front(steps) + [step];
    RunKeepsInv(Front(steps));
    RunKeepsInv(steps);
    if h in st.handles {
      SessStep(st, step, h);
      assert HandleOk(st.handles[h]) && st.handles[h].sess in st.sessions;
      if st.handles[h].lostCalls == 1 {
        LostOnlyByFault(Front(steps), h);
      } else {
        LossStep(st, step, h);
        if !LiveSession(st, st.handles[h].sess) {
          DeadHasDied(Front(steps), st.handles[h].sess);
        }
      }
    }
  }

  // ----- where the code falls short -----

  lemma Extend(steps: seq<Step>, step: Step)
    requires IsRun(steps) && Enabled(Final(steps), step)
    ensures IsRun(steps + [step]) && Final(steps + [step]) == Next(Final(steps), step)
  {
    assert Front(steps + [step]) == steps;
  }

  /** The steps by which call `h` gets the lock on session `s`. */
  function AcquireOn(h: Id, s: Id): seq<Step> { [Connect(h, s), SetAnswered(h), ServerTry(h), TryAnswered(h)] }

  function Acquired(st: State, h: Id, s: Id): State {
    var r := if s in st.sessions then st.sessions[s] else Session(true, false, 0, 0);
    State(st.sessions[s := r.(count := r.count + 1)], st.idle - {s},
          st.handles[h := Handle(s, Live, false, true, false, Armed, NotCalled, 0, 0)])
  }

  /** The server has granted the lock, and the answer is on its way. */
  function Granted(st: State, h: Id, s: Id): State {
    var r := if s in st.sessions then st.sessions[s] else Session(true, false, 0, 0);
    State(st.sessions[s := r.(count := r.count + 1)], st.idle - {s},
          st.handles[h := Handle(s, Tried(true), false, false, false, NoTimer, NotCalled, 0, 0)])
  }

  lemma AcquireStates(st: State, h: Id, s: Id) returns (a: State, b: State, c: State)
    requires Enabled(st, Connect(h, s)) && Grantable(st, s) && (s in st.sessions ==> st.sessions[s].alive)
    ensures a == Next(st, Connect(h, s)) && Enabled(a, SetAnswered(h))
    ensures b == Next(a, SetAnswered(h)) && Enabled(b, ServerTry(h))
    ensures c == Next(b, ServerTry(h)) == Granted(st, h, s) && Enabled(c, TryAnswered(h))
    ensures Next(c, TryAnswered(h)) == Acquired(st, h, s)
  {
    a := Next(st, Connect(h, s));
    b := Next(a, SetAnswered(h));
    assert Grantable(b, s);
    c := Next(b, ServerTry(h));
    assert c.handles == Granted(st, h, s).handles;
    assert Next(c, TryAnswered(h)).handles == Acquired(st, h, s).handles;
  }

  lemma ExtendTwice(steps: seq<Step>, one: Step, two: Step, a: State, b: State)
    requires IsRun(steps) && Enabled(Final(steps), one) && a == Next(Final(steps), one)
    requires Enabled(a, two) && b == Next(a, two)
    ensures IsRun(steps + [one, two]) && Final(steps + [one, two]) == b
  {
    Extend(steps, one);
    Extend(steps + [one], two);
    assert steps + [one] + [two] == steps + [one, two];
  }

  lemma AcquireRun(steps: seq<Step>, h: Id, s: Id)
    requires IsRun(steps) && Enabled(Final(steps), Connect(h, s)) && Grantable(Final(steps), s)
    requires s in Final(steps).sessions ==> Final(steps).sessions[s].alive
    ensures IsRun(steps + AcquireOn(h, s)) && Final(steps + AcquireOn(h, s)) == Acquired(Final(steps), h, s)
  {
    var a, b, c := AcquireStates(Final(steps), h, s);
    var d := Acquired(Final(steps), h, s);
    ExtendTwice(steps, Connect(h, s), SetAnswered(h), a, b);
    ExtendTwice(steps + [Connect(h, s), SetAnswered(h)], ServerTry(h), TryAnswered(h), c, d);
    assert steps + [Connect(h, s), SetAnswered(h)] + [ServerTry(h), TryAnswered(h)] == steps + AcquireOn(h, s);
  }

  /** A grant whose answer is lost puts the client back into the pool with the lock on it; the next
      call drawing that client then holds a count of 2 outside any heartbeat. */
  lemma LostGrantBreaksTheCount()
    ensures exists steps, h ::
      && IsRun(steps) && h in Final(steps).handles && Final(steps).handles[h].IsHeld()
      && !Final(steps).handles[h].InsideHeartbeat()
      && LiveSession(Final(steps), Final(steps).handles[h].sess)
      && Final(steps).sessions[Final(steps).handles[h].sess].count == 2
  {
    var steps := LostGrantRun();
    AcquireRun(steps, 1, 0);
    assert Final(steps + AcquireOn(1, 0)).handles[1].IsHeld();
  }

  /** One call whose grant is lost. */
  lemma LostGrantRun() returns (steps: seq<Step>)
    ensures IsRun(steps)
    ensures Final(steps) == State(map[0 := Session(true, false, 1, 1)], {0},
                                  map[0 := Handle(0, Rejected(false), false, false, false, NoTimer, NotCalled, 1, 0)])
  {
    var a, b, c := AcquireStates(Initial(), 0, 0);
    var d := LoseGrant();
    ExtendTwice([], Connect(0, 0), SetAnswered(0), a, b);
    steps := [] + [Connect(0, 0), SetAnswered(0)];
    ExtendTwice(steps, ServerTry(0), AcquireError(0), c, d);
    steps := steps + [ServerTry(0), AcquireError(0)];
  }

  lemma LoseGrant() returns (d: State)
    ensures var c := Granted(Initial(), 0, 0); Enabled(c, AcquireError(0)) && d == Next(c, AcquireError(0))
    ensures d == State(map[0 := Session(true, false, 1, 1)], {0},
                       map[0 := Handle(0, Rejected(false), false, false, false, NoTimer, NotCalled, 1, 0)])
  {
    d := Next(Granted(Initial(), 0, 0), AcquireError(0));
  }

  /** `isHeld()` alone is not exclusive: after a session dies unnoticed, two handles report true. By
      HolderIsUniqueAndExact this needs a dead session among the two. */
  lemma TwoHandlesReportHeld()
    ensures exists steps, h, k ::
      && IsRun(steps) && h != k && h in Final(steps).handles && k in Final(steps).handles
      && Final(steps).handles[h].IsHeld() && Final(steps).handles[k].IsHeld()
  {
    AcquireRun([], 0, 0);
    var a := [] + AcquireOn(0, 0);
    Extend(a, SessionDies(0));
    var b := a + [SessionDies(0)];
    AcquireRun(b, 1, 1);
    var c := b + AcquireOn(1, 1);
    assert Final(c).handles[0].IsHeld() && Final(c).handles[1].IsHeld();
  }
}
