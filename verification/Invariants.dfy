/** What every committed step does to the tables, and what holds of them in every run. */
module Invariants {
  import opened Graph
  import opened DagValidator
  import opened TaskStates
  import opened Tables
  import opened Protocol

  /** A task may always be claimed once, whatever limit it was created with. */
  function Limit(row: TaskRow): int {
    if row.maxAttempts < 1 then 1 else row.maxAttempts
  }

  // ------------------------------------------------------- the shape of one step

  /** The only status changes any step but a claim commits. */
  predicate Moves(row: TaskRow, to: TaskStatus) {
    match row.status
    case Pending => to in {Blocked, Queued}
    case Blocked => to == Queued
    case Queued => to in {Succeeded, Failed} && row.attemptCount >= 1
    case Running => to in {Succeeded, Failed} || (to == Queued && row.attemptCount < row.maxAttempts)
    case Failed => to == Queued && row.attemptCount < row.maxAttempts
    case _ => false
  }

  ghost predicate TasksMove(a: map<Id, TaskRow>, b: map<Id, TaskRow>) {
    && a.Keys == b.Keys
    && forall t | t in a :: b[t] == a[t].(status := b[t].status) && (b[t] == a[t] || Moves(a[t], b[t].status))
  }

  ghost predicate ExecsMove(a: map<Id, ExecRow>, b: map<Id, ExecRow>) {
    a.Keys == b.Keys && forall e | e in a :: b[e] == a[e].(status := b[e].status)
  }

  predicate SameLease(a: LeaseRow, b: LeaseRow) {
    a.worker == b.worker && a.task == b.task && a.exec == b.exec && a.claimedAt == b.claimedAt
  }

  ghost predicate LeasesMove(a: map<Id, LeaseRow>, b: map<Id, LeaseRow>) {
    a.Keys == b.Keys && forall l | l in a :: SameLease(a[l], b[l])
  }

  predicate Inserts(a: Action) {
    a.AddTask? || a.AddDependency? || a.Claim?
  }

  // ------------------------------------------------------------ the table invariant

  ghost predicate TaskOk(row: TaskRow) {
    && row.status !in {Ready, Retrying, Cancelled}
    && 0 <= row.attemptCount <= Limit(row)
    && (row.status in {Pending, Blocked} ==> row.attemptCount == 0)
    && (row.status == Queued ==> row.attemptCount < Limit(row))
    && (row.status in {Running, Succeeded, Failed} ==> row.attemptCount >= 1)
  }

  ghost predicate TasksOk(tasks: map<Id, TaskRow>) {
    forall t | t in tasks :: TaskOk(tasks[t])
  }

  /** Execution e is attempt n of task t. */
  predicate IsAttempt(execs: map<Id, ExecRow>, e: Id, t: Id, n: int) {
    e in execs && execs[e].task == t && execs[e].attemptNumber == n
  }

  ghost predicate HasAttempt(execs: map<Id, ExecRow>, t: Id, n: int) {
    exists e :: IsAttempt(execs, e, t, n)
  }

  /** Each task's executions are numbered 1, 2, ..., attemptCount, without gap or repetition. */
  ghost predicate AttemptsNumbered(tasks: map<Id, TaskRow>, execs: map<Id, ExecRow>) {
    && (forall e | e in execs :: execs[e].task in tasks
                                 && 1 <= execs[e].attemptNumber <= tasks[execs[e].task].attemptCount)
    && (forall e, f | e in execs && f in execs && execs[e].task == execs[f].task
                      && execs[e].attemptNumber == execs[f].attemptNumber :: e == f)
    && (forall t, n | t in tasks && 1 <= n <= tasks[t].attemptCount :: HasAttempt(execs, t, n))
  }

  ghost predicate LeasesOk(s: System) {
    && (forall l | l in s.db.leases ::
          var lease := s.db.leases[l];
          lease.task in s.db.tasks && lease.exec in s.db.execs && s.db.execs[lease.exec].task == lease.task)
    && (forall l, k | l in s.db.leases && k in s.db.leases && s.db.leases[l].exec == s.db.leases[k].exec :: l == k)
    && s.sessions.Keys <= s.db.leases.Keys
  }

  /** Dependencies stay inside a mission and have no cycle, over all missions at once. */
  ghost predicate DepsOk(db: Db) {
    && (forall d | d in db.deps :: d.task in db.tasks && InMission(db.tasks, db.tasks[d.task].mission, d.dependsOn))
    && !Cyclic(Edges(db.deps))
  }

  ghost predicate Inv(s: System) {
    TasksOk(s.db.tasks) && AttemptsNumbered(s.db.tasks, s.db.execs) && LeasesOk(s) && DepsOk(s.db)
  }

  // --------------------------------------------------- steps that insert nothing

  /** Whoever holds a session holds an attempt. */
  ghost predicate SessionsAttempted(s: System) {
    forall l | Known(s, l) :: s.db.leases[l].task in s.db.tasks && s.db.tasks[s.db.leases[l].task].attemptCount >= 1
  }

  lemma InvMeansTaskOk(s: System, t: Id)
    requires Inv(s) && t in s.db.tasks
    ensures TaskOk(s.db.tasks[t])
  {
  }

  lemma InvMeansAttempted(s: System)
    requires Inv(s)
    ensures SessionsAttempted(s)
  {
    forall l | Known(s, l)
      ensures s.db.leases[l].task in s.db.tasks && s.db.tasks[s.db.leases[l].task].attemptCount >= 1
    {
      var lease := s.db.leases[l];
      assert 1 <= s.db.execs[lease.exec].attemptNumber <= s.db.tasks[lease.task].attemptCount;
    }
  }

  ghost predicate QuietDb(a: Db, b: Db) {
    TasksMove(a.tasks, b.tasks) && ExecsMove(a.execs, b.execs) && LeasesMove(a.leases, b.leases) && b.deps == a.deps
  }

  /** No row appears or disappears; tasks and executions change status only, leases only their times. */
  ghost predicate Quiet(s: System, s': System) {
    QuietDb(s.db, s'.db) && s'.sessions.Keys <= s.sessions.Keys && s'.ttl == s.ttl && s.now <= s'.now
  }

  /** Every step that is not an insertion only moves statuses, along the listed moves. */
  lemma QuietSteps(s: System, a: Action)
    requires SessionsAttempted(s) && !Inserts(a)
    ensures Quiet(s, Next(s, a))
  {
    hide QuietDb;
    QuietRefl(s.db);
    match a
    case SetExecuting(m, on) => QuietExecuting(s.db, (SetExecutingStep(s, m, on)).db.executing);
    case Schedule(t, from, to) => QuietSchedule(s.db, t, from, to);
    case Renew(l) => if Known(s, l) { QuietRenew(s.db, s.now, s.ttl, s.db.leases[l].worker, l); }
    case RuntimeReturn(l, o) =>
      if Known(s, l) { QuietRuntime(s.db, s.db.leases[l].task, s.db.leases[l].exec, o); }
    case AssertOwnership(l) =>
    case VerifyReturn(l, _) =>
    case Raise(l) =>
    case Complete(l) =>
      if Known(s, l) && s.db.leases[l].task in s.db.tasks && s.db.tasks[s.db.leases[l].task].status == Running {
        QuietComplete(s.db, s.now, s.db.leases[l].task, s.db.leases[l].exec, l);
      }
    case Fail(l) =>
      if Known(s, l) {
        QuietFail(s.db, s.now, s.db.leases[l].worker, s.db.leases[l].task, s.db.leases[l].exec, l);
      }
    case Release(l) => if Known(s, l) { QuietRelease(s.db, s.now, s.db.leases[l].worker, l); }
    case Recover(l, skipped) => QuietRecover(s.db, s.now, l, skipped);
    case Tick(_) =>
  }

  lemma QuietRefl(db: Db)
    ensures QuietDb(db, db)
  {
  }

  lemma QuietExecuting(db: Db, missions: set<Id>)
    ensures QuietDb(db, db.(executing := missions))
  {
  }

  lemma QuietSchedule(db: Db, t: Id, from: TaskStatus, to: TaskStatus)
    ensures QuietDb(db, ScheduleRows(db, t, from, to))
  {
  }

  lemma QuietRenew(db: Db, now: int, ttl: int, worker: Id, l: Id)
    ensures QuietDb(db, RenewRows(db, now, ttl, worker, l))
  {
  }

  lemma QuietRelease(db: Db, now: int, worker: Id, l: Id)
    ensures QuietDb(db, ReleaseRows(db, now, worker, l))
  {
  }

  lemma QuietRuntime(db: Db, t: Id, e: Id, o: Outcome)
    requires t in db.tasks && db.tasks[t].attemptCount >= 1
    ensures QuietDb(db, RuntimeRows(db, t, e, o))
  {
  }

  lemma QuietComplete(db: Db, now: int, t: Id, e: Id, l: Id)
    requires t in db.tasks && db.tasks[t].status == Running
    ensures QuietDb(db, CompleteRows(db, now, t, e, l))
  {
  }

  lemma QuietFail(db: Db, now: int, worker: Id, t: Id, e: Id, l: Id)
    ensures QuietDb(db, FailRows(db, now, worker, t, e, l))
  {
    if t in db.tasks {
      var moved := SetStatus(db, t, FailedStatus(db.tasks[t]));
      assert TasksMove(db.tasks, moved.tasks);
      hide FailedStatus;
      var noted := SetExec(moved, e, ExecFailed);
      assert ExecsMove(db.execs, noted.execs);
      hide SetStatus, SetExec;
      assert LeasesMove(db.leases, ReleaseRows(noted, now, worker, l).leases);
    } else {
      QuietRefl(db);
    }
  }

  lemma QuietRecover(db: Db, now: int, l: Id, skipped: set<Id>)
    ensures QuietDb(db, RecoverRows(db, now, l, skipped))
  {
  }

  // ---------------------------------------------------- the invariant is preserved

  lemma QuietKeepsTables(s: System, s': System)
    requires Inv(s) && Quiet(s, s')
    ensures AttemptsNumbered(s'.db.tasks, s'.db.execs) && LeasesOk(s') && DepsOk(s'.db)
  {
    forall t, n | t in s'.db.tasks && 1 <= n <= s'.db.tasks[t].attemptCount
      ensures HasAttempt(s'.db.execs, t, n)
    {
      assert HasAttempt(s.db.execs, t, n);
      var e :| IsAttempt(s.db.execs, e, t, n);
      assert IsAttempt(s'.db.execs, e, t, n);
    }
  }

  lemma QuietKeepsTasks(s: System, s': System)
    requires Inv(s) && Quiet(s, s')
    ensures TasksOk(s'.db.tasks)
  {
    forall t | t in s'.db.tasks ensures TaskOk(s'.db.tasks[t]) {
      assert TaskOk(s.db.tasks[t]);
    }
  }

  /** Execution e becomes the next attempt of task t. */
  lemma NextAttemptNumbered(tasks: map<Id, TaskRow>, execs: map<Id, ExecRow>, t: Id, row: TaskRow, e: Id)
    requires AttemptsNumbered(tasks, execs) && t in tasks && e !in execs
    requires row.attemptCount == tasks[t].attemptCount + 1
    ensures 0 <= tasks[t].attemptCount ==>
              AttemptsNumbered(tasks[t := row], execs[e := ExecRow(t, row.attemptCount, ExecRunning)])
  {
    var tasks', execs' := tasks[t := row], execs[e := ExecRow(t, row.attemptCount, ExecRunning)];
    forall u, k | u in tasks' && 1 <= k <= tasks'[u].attemptCount ensures HasAttempt(execs', u, k) {
      if u == t && k == row.attemptCount {
        assert IsAttempt(execs', e, u, k);
      } else {
        assert HasAttempt(execs, u, k);
        var f :| IsAttempt(execs, f, u, k);
        assert IsAttempt(execs', f, u, k);
      }
    }
  }

  lemma ClaimKeepsLeases(s: System, a: Action)
    requires LeasesOk(s) && Claims(s, a)
    ensures LeasesOk(ClaimStep(s, a))
  {
  }

  lemma ClaimKeepsDeps(db: Db, db': Db)
    requires DepsOk(db) && db'.deps == db.deps && db.tasks.Keys == db'.tasks.Keys
    requires forall t | t in db.tasks :: db'.tasks[t].mission == db.tasks[t].mission
    ensures DepsOk(db')
  {
  }

  lemma ClaimKeepsTasks(tasks: map<Id, TaskRow>, t: Id, row: TaskRow)
    requires TasksOk(tasks) && t in tasks && tasks[t].status == Queued
    requires row.status == Running && row.attemptCount == tasks[t].attemptCount + 1
    requires row.maxAttempts == tasks[t].maxAttempts
    ensures TasksOk(tasks[t := row]) && 0 <= tasks[t].attemptCount
  {
    assert TaskOk(tasks[t]);
  }

  lemma ClaimKeepsInv(s: System, a: Action)
    requires Inv(s) && Claims(s, a)
    ensures Inv(ClaimStep(s, a))
  {
    hide TasksOk, AttemptsNumbered, LeasesOk, DepsOk;
    var s' := ClaimStep(s, a);
    ClaimKeepsTasks(s.db.tasks, a.task, s'.db.tasks[a.task]);
    NextAttemptNumbered(s.db.tasks, s.db.execs, a.task, s'.db.tasks[a.task], a.exec);
    ClaimKeepsLeases(s, a);
    ClaimKeepsDeps(s.db, s'.db);
  }

  lemma AddTaskKeepsInv(s: System, a: Action)
    requires Inv(s) && a.AddTask?
    ensures Inv(AddTaskStep(s, a.id, a.inMission, a.taskType, a.priority, a.createdAt, a.maxAttempts))
  {
    var s' := AddTaskStep(s, a.id, a.inMission, a.taskType, a.priority, a.createdAt, a.maxAttempts);
    forall u, k | u in s'.db.tasks && 1 <= k <= s'.db.tasks[u].attemptCount
      ensures HasAttempt(s'.db.execs, u, k)
    {
      assert HasAttempt(s.db.execs, u, k);
    }
  }

  /** All the nodes of a cycle lie in one mission, so a cycle is already one in that mission's slice. */
  lemma CycleInSlice(db: Db, dep: Dep, m: Id)
    requires DepsOk(db) && InMission(db.tasks, m, dep.task) && InMission(db.tasks, m, dep.dependsOn)
    requires Cyclic(Edges(db.deps + [dep]))
    ensures Cyclic(Edges(MissionDeps(db.deps, db.tasks, m) + [dep]))
  {
    var all, slice := db.deps + [dep], MissionDeps(db.deps, db.tasks, m) + [dep];
    var w: seq<Id> :| |w| >= 2 && IsWalk(Edges(all), w) && w[0] == w[|w| - 1];
    if exists i :: 0 <= i < |w| && InMission(db.tasks, m, w[i]) {
      var i :| 0 <= i < |w| && InMission(db.tasks, m, w[i]);
      WalkStaysInMission(db, dep, m, w, i, m);
      forall k | 0 <= k < |w| - 1 ensures (w[k], w[k + 1]) in Edges(slice) {
        assert (w[k], w[k + 1]) in Edges(all);
        var d :| d in all && (d.dependsOn, d.task) == (w[k], w[k + 1]);
        assert d in slice;
      }
      assert IsWalk(Edges(slice), w);
    } else {
      OutsideWalk(db, dep, m, w);
    }
  }

  /** A walk that avoids the mission does not use the new edge. */
  lemma OutsideWalk(db: Db, dep: Dep, m: Id, w: seq<Id>)
    requires InMission(db.tasks, m, dep.task)
    requires IsWalk(Edges(db.deps + [dep]), w) && forall i | 0 <= i < |w| :: !InMission(db.tasks, m, w[i])
    ensures IsWalk(Edges(db.deps), w)
  {
    forall k | 0 <= k < |w| - 1 ensures (w[k], w[k + 1]) in Edges(db.deps) {
      assert (w[k], w[k + 1]) in Edges(db.deps + [dep]);
      var d :| d in db.deps + [dep] && (d.dependsOn, d.task) == (w[k], w[k + 1]);
      assert d in db.deps;
    }
  }

  lemma WalkStaysInMission(db: Db, dep: Dep, m: Id, w: seq<Id>, i: nat, here: Id)
    requires DepsOk(db) && InMission(db.tasks, m, dep.task) && InMission(db.tasks, m, dep.dependsOn)
    requires IsWalk(Edges(db.deps + [dep]), w) && i < |w| && InMission(db.tasks, here, w[i])
    ensures forall k | 0 <= k < |w| :: InMission(db.tasks, here, w[k])
  {
    var up := i;
    while up < |w| - 1
      invariant i <= up < |w| && forall k | i <= k <= up :: InMission(db.tasks, here, w[k])
    {
      assert (w[up], w[up + 1]) in Edges(db.deps + [dep]);
      up := up + 1;
    }
    var down := i;
    while down > 0
      invariant 0 <= down <= i && forall k | down <= k < |w| :: InMission(db.tasks, here, w[k])
    {
      assert (w[down - 1], w[down]) in Edges(db.deps + [dep]);
      down := down - 1;
    }
  }

  lemma AddDependencyKeepsInv(s: System, m: Id, dep: Dep)
    requires Inv(s)
    ensures Inv(AddDependencyStep(s, m, dep))
  {
    if MayAdd(s.db, m, dep) && Cyclic(Edges(s.db.deps + [dep])) {
      CycleInSlice(s.db, dep, m);
    }
  }

  lemma NextKeepsInv(s: System, a: Action)
    requires Inv(s)
    ensures Inv(Next(s, a))
  {
    hide Quiet, TasksOk, AttemptsNumbered, LeasesOk, DepsOk, SessionsAttempted;
    match a
    case AddTask(_, _, _, _, _, _) => AddTaskKeepsInv(s, a);
    case AddDependency(m, dep) => AddDependencyKeepsInv(s, m, dep);
    case Claim(_, _, _, _, _, _) => if Claims(s, a) { ClaimKeepsInv(s, a); }
    case _ =>
      InvMeansAttempted(s);
      QuietSteps(s, a);
      QuietKeepsTables(s, Next(s, a));
      QuietKeepsTasks(s, Next(s, a));
  }

  lemma InitInv(now: int, ttl: int)
    ensures Inv(Init(now, ttl))
  {
    assert PostOrder(Edges([]), []);
    PostOrderMeansAcyclic(Edges([]), []);
  }

  /** The tables are sound after every run, recovery included. */
  lemma {:induction false} RunsKeepInv(now: int, ttl: int, acts: seq<Action>)
    ensures Inv(After(Init(now, ttl), acts))
  {
    if acts == [] {
      InitInv(now, ttl);
    } else {
      RunsKeepInv(now, ttl, acts[..|acts| - 1]);
      NextKeepsInv(After(Init(now, ttl), acts[..|acts| - 1]), acts[|acts| - 1]);
    }
  }
}
