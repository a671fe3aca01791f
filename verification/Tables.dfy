/**
 The rows the scheduler, the workers and the orchestrator share, and what each committed
 unit of work does to them.
 */
module Tables {
  import opened DagValidator
  import opened Wrappers
  import opened TaskStates

  datatype TaskType = Analysis | Planning | Implementation | Testing | SecurityReview | CodeReview | Verification

  datatype Capability = CodingSkill | TestingSkill | SecuritySkill | DocumentationSkill | ResearchSkill

  function RequiredCapability(t: TaskType): (r: Capability)
    ensures r == CodingSkill <==> t in {Implementation, CodeReview}
    ensures r == TestingSkill <==> t in {Testing, TaskType.Verification}
    ensures r == SecuritySkill <==> t == SecurityReview
    ensures r == ResearchSkill <==> t in {Analysis, TaskType.Planning}
  {
    match t
    case Implementation => CodingSkill
    case Testing => TestingSkill
    case SecurityReview => SecuritySkill
    case CodeReview => CodingSkill
    case Verification => TestingSkill
    case Analysis => ResearchSkill
    case Planning => ResearchSkill
  }

  datatype ExecStatus = ExecRunning | ExecSucceeded | ExecFailed

  datatype TaskRow = TaskRow(mission: Id, taskType: TaskType, priority: int, createdAt: int,
                             status: TaskStatus, attemptCount: int, maxAttempts: int, assignedTo: Option<Id>)

  datatype ExecRow = ExecRow(task: Id, attemptNumber: int, status: ExecStatus)

  datatype LeaseRow = LeaseRow(worker: Id, task: Id, exec: Id, claimedAt: int,
                               expiresAt: int, lastHeartbeat: int, renewedCount: int)

  /** `executing` holds the missions whose status is EXECUTING. */
  datatype Db = Db(executing: set<Id>, tasks: map<Id, TaskRow>, deps: seq<Dep>,
                   execs: map<Id, ExecRow>, leases: map<Id, LeaseRow>)

  function SetStatus(db: Db, t: Id, s: TaskStatus): Db
    requires t in db.tasks
  {
    db.(tasks := db.tasks[t := db.tasks[t].(status := s)])
  }

  function SetExec(db: Db, e: Id, s: ExecStatus): Db {
    if e in db.execs then db.(execs := db.execs[e := db.execs[e].(status := s)]) else db
  }

  // ---------------------------------------------------------------- dependencies

  /** The tasks t depends on, in stored order. */
  function Parents(deps: seq<Dep>, t: Id): (r: seq<Id>)
    ensures forall p :: p in r <==> Dep(t, p) in deps
  {
    if deps == [] then []
    else if deps[0].task == t then [deps[0].dependsOn] + Parents(deps[1..], t)
    else Parents(deps[1..], t)
  }

  /** get_dependencies_for_mission: the dependencies whose depending task is in the mission. */
  function MissionDeps(deps: seq<Dep>, tasks: map<Id, TaskRow>, m: Id): (r: seq<Dep>)
    ensures forall d :: d in r <==> d in deps && d.task in tasks && tasks[d.task].mission == m
  {
    if deps == [] then []
    else (if deps[0].task in tasks && tasks[deps[0].task].mission == m then [deps[0]] else [])
         + MissionDeps(deps[1..], tasks, m)
  }

  /** Filtering by mission first loses none of the dependencies of the mission's own tasks. */
  lemma {:induction false} ParentsOfSlice(deps: seq<Dep>, tasks: map<Id, TaskRow>, m: Id, t: Id)
    requires InMission(tasks, m, t)
    ensures Parents(MissionDeps(deps, tasks, m), t) == Parents(deps, t)
  {
    if deps != [] {
      var rest := MissionDeps(deps[1..], tasks, m);
      ParentsOfSlice(deps[1..], tasks, m, t);
      if deps[0].task in tasks && tasks[deps[0].task].mission == m {
        assert ([deps[0]] + rest)[1..] == rest;
      } else {
        assert [] + rest == rest;
      }
    }
  }

  predicate InMission(tasks: map<Id, TaskRow>, m: Id, t: Id) {
    t in tasks && tasks[t].mission == m
  }

  predicate HasSucceeded(tasks: map<Id, TaskRow>, m: Id, t: Id) {
    InMission(tasks, m, t) && tasks[t].status == Succeeded
  }

  predicate BlocksChildren(tasks: map<Id, TaskRow>, m: Id, t: Id) {
    !InMission(tasks, m, t) || tasks[t].status in {Failed, Cancelled}
  }

  ghost predicate ParentsSucceeded(db: Db, t: Id)
    requires t in db.tasks
  {
    forall p | Dep(t, p) in db.deps :: HasSucceeded(db.tasks, db.tasks[t].mission, p)
  }

  datatype Readiness = AllSucceeded | Waiting | Obstructed

  /** The i-th parent is the first that has not succeeded, and gives this answer. */
  predicate Settles(i: nat, r: Readiness, parents: seq<Id>, tasks: map<Id, TaskRow>, m: Id)
    requires i < |parents|
  {
    && !HasSucceeded(tasks, m, parents[i])
    && (forall j | 0 <= j < i :: HasSucceeded(tasks, m, parents[j]))
    && r == if BlocksChildren(tasks, m, parents[i]) then Obstructed else Waiting
  }

  /** The first parent that has not succeeded settles the matter. */
  ghost predicate SettledBy(r: Readiness, parents: seq<Id>, tasks: map<Id, TaskRow>, m: Id) {
    if forall p | p in parents :: HasSucceeded(tasks, m, p) then r == AllSucceeded
    else exists i :: 0 <= i < |parents| && Settles(i, r, parents, tasks, m)
  }

  function Scan(parents: seq<Id>, tasks: map<Id, TaskRow>, m: Id): (r: Readiness)
    ensures SettledBy(r, parents, tasks, m)
  {
    if parents == [] then AllSucceeded
    else if BlocksChildren(tasks, m, parents[0]) then
      assert Settles(0, Obstructed, parents, tasks, m);
      Obstructed
    else if tasks[parents[0]].status != Succeeded then
      assert Settles(0, Waiting, parents, tasks, m);
      Waiting
    else
      var r := Scan(parents[1..], tasks, m);
      SettledLater(r, parents, tasks, m);
      r
  }

  lemma SettledLater(r: Readiness, parents: seq<Id>, tasks: map<Id, TaskRow>, m: Id)
    requires parents != [] && HasSucceeded(tasks, m, parents[0]) && SettledBy(r, parents[1..], tasks, m)
    ensures SettledBy(r, parents, tasks, m)
  {
    hide HasSucceeded, BlocksChildren;
    assert parents == [parents[0]] + parents[1..];
    if i :| 0 <= i < |parents[1..]| && Settles(i, r, parents[1..], tasks, m) {
      SettlesShift(i, r, parents, tasks, m);
      assert parents[i + 1] in parents;
    }
  }

  lemma SettlesShift(i: nat, r: Readiness, parents: seq<Id>, tasks: map<Id, TaskRow>, m: Id)
    requires parents != [] && HasSucceeded(tasks, m, parents[0])
    requires i < |parents[1..]| && Settles(i, r, parents[1..], tasks, m)
    ensures Settles(i + 1, r, parents, tasks, m)
  {
    hide HasSucceeded, BlocksChildren;
    forall j | 0 <= j < i + 1 ensures HasSucceeded(tasks, m, parents[j]) {
      if j > 0 { assert parents[j] == parents[1..][j - 1]; }
    }
  }

  // ------------------------------------------------------------------ scheduling

  /** The status a scheduling pass leaves a task in. */
  function ScheduledStatus(db: Db, t: Id): TaskStatus
    requires t in db.tasks
  {
    var row := db.tasks[t];
    if row.status !in {Pending, Blocked} then row.status
    else match Scan(Parents(db.deps, t), db.tasks, row.mission)
      case AllSucceeded => Queued
      case Obstructed => Blocked
      case Waiting => row.status
  }

  /**
   One conditional update of a scheduling pass.  The pass read the rows earlier, so the update may come
   at any later time and for any reason; it applies only to a task still in the expected status.
   */
  function ScheduleRows(db: Db, t: Id, from: TaskStatus, to: TaskStatus): Db {
    if t in db.tasks && db.tasks[t].status == from && MayReschedule(from, to) then SetStatus(db, t, to) else db
  }

  predicate MayReschedule(from: TaskStatus, to: TaskStatus) {
    (from in {Pending, Blocked} && to == Queued) || (from == Pending && to == Blocked)
  }

  /** One pass of schedule_ready_tasks over a mission. */
  function SchedulePass(db: Db, m: Id): Db {
    if m !in db.executing then db
    else db.(tasks := map t | t in db.tasks ::
               if db.tasks[t].mission == m then db.tasks[t].(status := ScheduledStatus(db, t)) else db.tasks[t])
  }

  // -------------------------------------------------------------------- claiming

  predicate Eligible(db: Db, m: Id, skills: set<Capability>, t: Id) {
    && InMission(db.tasks, m, t)
    && db.tasks[t].status == Queued
    && RequiredCapability(db.tasks[t].taskType) in skills
    && forall d | d in db.deps && d.task == t :: HasSucceeded(db.tasks, m, d.dependsOn)
  }

  predicate NoLater(a: TaskRow, b: TaskRow) {
    a.priority < b.priority || (a.priority == b.priority && a.createdAt <= b.createdAt)
  }

  /** The task claim_next_task may take: eligible, and none eligible comes strictly before it. */
  predicate BestClaim(db: Db, m: Id, skills: set<Capability>, t: Id) {
    && m in db.executing && Eligible(db, m, skills, t)
    && forall u | u in db.tasks && Eligible(db, m, skills, u) :: NoLater(db.tasks[t], db.tasks[u])
  }

  function ClaimRows(db: Db, now: int, ttl: int, worker: Id, t: Id, l: Id, e: Id): Db
    requires t in db.tasks
  {
    var row := db.tasks[t].(status := Running, assignedTo := Some(worker),
                            attemptCount := db.tasks[t].attemptCount + 1);
    db.(tasks := db.tasks[t := row],
        execs := db.execs[e := ExecRow(t, row.attemptCount, ExecRunning)],
        leases := db.leases[l := LeaseRow(worker, t, e, now, now + ttl, now, 0)])
  }

  // ----------------------------------------------------------------------- leases

  predicate Live(db: Db, now: int, l: Id) {
    l in db.leases && db.leases[l].expiresAt > now
  }

  /** The test that renew_lease and _assert_ownership make. */
  predicate Owns(db: Db, now: int, worker: Id, l: Id) {
    Live(db, now, l) && db.leases[l].worker == worker
  }

  function RenewRows(db: Db, now: int, ttl: int, worker: Id, l: Id): Db {
    if !Owns(db, now, worker, l) then db
    else db.(leases := db.leases[l := db.leases[l].(expiresAt := now + ttl, lastHeartbeat := now,
                                                    renewedCount := db.leases[l].renewedCount + 1)])
  }

  function ReleaseRows(db: Db, now: int, worker: Id, l: Id): Db {
    if l !in db.leases || db.leases[l].worker != worker then db
    else db.(leases := db.leases[l := db.leases[l].(expiresAt := now)])
  }

  // -------------------------------------------------------- completion and failure

  /** What _fail_task leaves of a task: only RUNNING and FAILED tasks change. */
  function FailedStatus(row: TaskRow): TaskStatus {
    if row.status !in {Running, Failed} then row.status
    else if row.attemptCount < row.maxAttempts then Queued
    else Failed
  }

  function FailRows(db: Db, now: int, worker: Id, t: Id, e: Id, l: Id): Db {
    if t !in db.tasks then db
    else ReleaseRows(SetExec(SetStatus(db, t, FailedStatus(db.tasks[t])), e, ExecFailed), now, worker, l)
  }

  /** _complete_task writes back the lease copy made at claim time, expired now. */
  function CompleteRows(db: Db, now: int, t: Id, e: Id, l: Id): Db
    requires t in db.tasks
  {
    var done := SetExec(SetStatus(db, t, Succeeded), e, ExecSucceeded);
    if l !in db.leases then done
    else done.(leases := db.leases[l := db.leases[l].(expiresAt := now, lastHeartbeat := db.leases[l].claimedAt,
                                                      renewedCount := 0)])
  }

  // --------------------------------------------------------------- agent runtimes

  /** The runtime's own verdict on the task, if it gets as far as writing one. */
  datatype Outcome = Untouched | RuntimeSucceeded | RuntimeFailed

  /** The task status a runtime that wants `target` leaves behind; a QUEUED task is walked through RUNNING. */
  function RuntimeStatus(from: TaskStatus, target: TaskStatus): TaskStatus
    requires target in {Succeeded, Failed}
  {
    if from in {Running, Queued} then target else from
  }

  function RuntimeRows(db: Db, t: Id, e: Id, o: Outcome): Db {
    if o.Untouched? then db
    else
      var target := if o.RuntimeSucceeded? then Succeeded else Failed;
      var moved := if t in db.tasks then SetStatus(db, t, RuntimeStatus(db.tasks[t].status, target)) else db;
      SetExec(moved, e, if o.RuntimeSucceeded? then ExecSucceeded else ExecFailed)
  }

  // --------------------------------------------------------------------- recovery

  /** recover_stale looks at this lease and marks its execution failed. */
  predicate StaleFor(db: Db, now: int, l: Id) {
    && l in db.leases && db.leases[l].expiresAt < now
    && db.leases[l].task in db.tasks && db.tasks[db.leases[l].task].status in {Running, Queued}
  }

  /** ... and also requeues the lease's task. */
  predicate Recovers(db: Db, now: int, l: Id) {
    && StaleFor(db, now, l)
    && var row := db.tasks[db.leases[l].task];
       row.status == Running && row.attemptCount < row.maxAttempts
  }

  /** The executions of stale leases, except those already marked succeeded, become failed. */
  function FailExecsOf(db: Db, stale: set<Id>): Db {
    db.(execs := map e | e in db.execs ::
          if db.execs[e].status != ExecSucceeded && exists l :: l in stale && l in db.leases && db.leases[l].exec == e
          then db.execs[e].(status := ExecFailed) else db.execs[e])
  }

  /** One commit of recover_stale: lease l's task is requeued; `skipped` leases only lose their executions. */
  function RecoverRows(db: Db, now: int, l: Id, skipped: set<Id>): Db {
    if !Recovers(db, now, l) then db
    else
      var stale := {l} + set s | s in skipped && StaleFor(db, now, s);
      SetStatus(FailExecsOf(db, stale), db.leases[l].task, Queued)
  }

  /** A whole call of recover_stale, commit by commit. */
  function ApplyRecoveries(db: Db, now: int, commits: seq<(Id, set<Id>)>): Db {
    if commits == [] then db
    else
      var last := commits[|commits| - 1];
      RecoverRows(ApplyRecoveries(db, now, commits[..|commits| - 1]), now, last.0, last.1)
  }

  /** The status a complete call of recover_stale leaves a task in. */
  ghost function RecoveredStatus(db: Db, now: int, t: Id): TaskStatus
    requires t in db.tasks
  {
    if exists l :: Recovers(db, now, l) && db.leases[l].task == t then Queued else db.tasks[t].status
  }
}
