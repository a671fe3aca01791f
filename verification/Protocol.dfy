/**
 The shared tables under any number of schedulers, workers and API calls, interleaved.
 Every action is one committed unit of work (or one decision of a worker that writes
 nothing), read at one instant of a clock that never goes back.
 */
module Protocol {
  import opened DagValidator
  import opened Wrappers
  import opened TaskStates
  import opened Tables

  /** Where a worker stands inside execute_claimed. */
  datatype Phase =
    | Executing    // preparing the environment or running the agent
    | RuntimeDone  // the agent has returned; ownership not yet checked
    | Verifying
    | VerifiedOk   // verification answered; ownership not yet checked again
    | VerifiedBad
    | Completing   // inside _complete_task, before its own ownership check
    | Committing   // ... and after it
    | Failing      // inside _fail_task

  /** One call of execute_claimed; `wrote` says whether its agent wrote a final status. */
  datatype Session = Session(phase: Phase, wrote: bool)

  datatype System = System(db: Db, now: int, ttl: int, sessions: map<Id, Session>)

  datatype Action =
    | AddTask(id: Id, inMission: Id, taskType: TaskType, priority: int, createdAt: int, maxAttempts: int)
    | AddDependency(mission: Id, dep: Dep)
    | SetExecuting(mission: Id, executing: bool)
    | Schedule(id: Id, from: TaskStatus, to: TaskStatus)
    | Claim(mission: Id, skills: set<Capability>, worker: Id, task: Id, lease: Id, exec: Id)
    | Renew(lease: Id)
    | RuntimeReturn(lease: Id, outcome: Outcome)
    | AssertOwnership(lease: Id)
    | VerifyReturn(lease: Id, success: bool)
    | Raise(lease: Id)
    | Complete(lease: Id)
    | Fail(lease: Id)
    | Release(lease: Id)
    | Recover(lease: Id, skipped: set<Id>)
    | Tick(delta: nat)

  function Init(now: int, ttl: int): System {
    System(Db({}, map[], [], map[], map[]), now, ttl, map[])
  }

  /** The worker holding lease l is inside execute_claimed at phase p. */
  predicate At(s: System, l: Id, p: Phase) {
    l in s.sessions && s.sessions[l].phase == p
  }

  /** Sessions are opened together with their lease. */
  predicate Known(s: System, l: Id) {
    l in s.sessions && l in s.db.leases
  }

  function Goto(s: System, l: Id, p: Phase): System
    requires l in s.sessions
  {
    s.(sessions := s.sessions[l := s.sessions[l].(phase := p)])
  }

  function End(s: System, l: Id): System {
    s.(sessions := s.sessions - {l})
  }

  function AddTaskStep(s: System, t: Id, m: Id, kind: TaskType, priority: int, at: int, limit: int): System {
    if t in s.db.tasks then s
    else s.(db := s.db.(tasks := s.db.tasks[t := TaskRow(m, kind, priority, at, Pending, 0, limit, None)]))
  }

  /** add_dependency: both tasks must exist in the mission, and the mission's own graph stays sound. */
  ghost predicate MayAdd(db: Db, m: Id, dep: Dep) {
    && InMission(db.tasks, m, dep.task) && InMission(db.tasks, m, dep.dependsOn)
    && Decides(Accepted, dep, MissionDeps(db.deps, db.tasks, m))
  }

  ghost function AddDependencyStep(s: System, m: Id, dep: Dep): System {
    if MayAdd(s.db, m, dep) then s.(db := s.db.(deps := s.db.deps + [dep])) else s
  }

  function SetExecutingStep(s: System, m: Id, on: bool): System {
    s.(db := s.db.(executing := if on then s.db.executing + {m} else s.db.executing - {m}))
  }

  /** claim_next_task, when `t` is the task it settles on and the new rows' ids are fresh. */
  predicate Claims(s: System, a: Action) {
    && a.Claim? && BestClaim(s.db, a.mission, a.skills, a.task)
    && a.lease !in s.db.leases && a.exec !in s.db.execs
  }

  function ClaimStep(s: System, a: Action): System
    requires a.Claim?
  {
    if !Claims(s, a) then s
    else s.(db := ClaimRows(s.db, s.now, s.ttl, a.worker, a.task, a.lease, a.exec),
            sessions := s.sessions[a.lease := Session(Executing, false)])
  }

  lemma IdleClaim(s: System, a: Action)
    requires a.Claim? && !Claims(s, a)
    ensures ClaimStep(s, a) == s
  {
  }

  function RenewStep(s: System, l: Id): System {
    if !Known(s, l) then s
    else s.(db := RenewRows(s.db, s.now, s.ttl, s.db.leases[l].worker, l))
  }

  function RuntimeReturnStep(s: System, l: Id, o: Outcome): System {
    if !(Known(s, l) && At(s, l, Executing)) then s
    else s.(db := RuntimeRows(s.db, s.db.leases[l].task, s.db.leases[l].exec, o),
            sessions := s.sessions[l := Session(RuntimeDone, !o.Untouched?)])
  }

  /** _assert_ownership: go on, or leave the task alone for good. */
  function AssertOwnershipStep(s: System, l: Id): System {
    if !Known(s, l) then s
    else
      var p := s.sessions[l].phase;
      if p !in {RuntimeDone, VerifiedOk, VerifiedBad, Completing} then s
      else if !Owns(s.db, s.now, s.db.leases[l].worker, l) then End(s, l)
      else Goto(s, l, match p
                      case RuntimeDone => Verifying
                      case VerifiedOk => Completing
                      case VerifiedBad => Failing
                      case _ => Committing)
  }

  function VerifyReturnStep(s: System, l: Id, ok: bool): System {
    if !At(s, l, Verifying) then s else Goto(s, l, if ok then VerifiedOk else VerifiedBad)
  }

  /** Any other exception inside execute_claimed leads to _fail_task. */
  function RaiseStep(s: System, l: Id): System {
    if l !in s.sessions then s else Goto(s, l, Failing)
  }

  /** _complete_task after its ownership check; a task that is not RUNNING makes it raise. */
  function CompleteStep(s: System, l: Id): System {
    if !(Known(s, l) && At(s, l, Committing)) then s
    else
      var t := s.db.leases[l].task;
      if t in s.db.tasks && s.db.tasks[t].status == Running
      then End(s.(db := CompleteRows(s.db, s.now, t, s.db.leases[l].exec, l)), l)
      else Goto(s, l, Failing)
  }

  function FailStep(s: System, l: Id): System {
    if !(Known(s, l) && At(s, l, Failing)) then s
    else
      var lease := s.db.leases[l];
      End(s.(db := FailRows(s.db, s.now, lease.worker, lease.task, lease.exec, l)), l)
  }

  /** _release_lease, by a worker shutting down while its session may still be running. */
  function ReleaseStep(s: System, l: Id): System {
    if !Known(s, l) then s
    else s.(db := ReleaseRows(s.db, s.now, s.db.leases[l].worker, l))
  }

  ghost function Next(s: System, a: Action): System {
    match a
    case AddTask(t, m, kind, priority, at, limit) => AddTaskStep(s, t, m, kind, priority, at, limit)
    case AddDependency(m, dep) => AddDependencyStep(s, m, dep)
    case SetExecuting(m, on) => SetExecutingStep(s, m, on)
    case Schedule(t, from, to) => s.(db := ScheduleRows(s.db, t, from, to))
    case Claim(_, _, _, _, _, _) => ClaimStep(s, a)
    case Renew(l) => RenewStep(s, l)
    case RuntimeReturn(l, o) => RuntimeReturnStep(s, l, o)
    case AssertOwnership(l) => AssertOwnershipStep(s, l)
    case VerifyReturn(l, ok) => VerifyReturnStep(s, l, ok)
    case Raise(l) => RaiseStep(s, l)
    case Complete(l) => CompleteStep(s, l)
    case Fail(l) => FailStep(s, l)
    case Release(l) => ReleaseStep(s, l)
    case Recover(l, skipped) => s.(db := RecoverRows(s.db, s.now, l, skipped))
    case Tick(d) => s.(now := s.now + d)
  }

  /** A run is any sequence of actions from empty tables; an action that cannot happen changes nothing. */
  ghost function After(start: System, acts: seq<Action>): System {
    if acts == [] then start
    else Next(After(start, acts[..|acts| - 1]), acts[|acts| - 1])
  }

  lemma AfterStep(start: System, acts: seq<Action>, i: nat)
    requires i < |acts|
    ensures After(start, acts[..i + 1]) == Next(After(start, acts[..i]), acts[i])
  {
    assert acts[..i + 1][..i] == acts[..i];
  }

  /** run_forever never recovers: these are the runs it can take. */
  ghost predicate WithoutRecovery(acts: seq<Action>) {
    forall i | 0 <= i < |acts| :: !acts[i].Recover?
  }
}
