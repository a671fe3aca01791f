/**
 Lease exclusivity: while no worker recovers, no two workers ever hold one task.  Recovery
 can break it, exactly when it requeues a task somebody still holds.
 */
module Exclusivity {
  import opened DagValidator
  import opened TaskStates
  import opened Tables
  import opened Protocol
  import opened Invariants

  /** Lease l belongs to its task's latest execution. */
  predicate HoldsLatest(db: Db, l: Id) {
    && l in db.leases && db.leases[l].task in db.tasks && db.leases[l].exec in db.execs
    && db.execs[db.leases[l].exec].attemptNumber == db.tasks[db.leases[l].task].attemptCount
  }

  /** What the promise of single ownership says about the tables. */
  ghost predicate Exclusive(s: System) {
    && (forall l, k | Live(s.db, s.now, l) && Live(s.db, s.now, k) && s.db.leases[l].task == s.db.leases[k].task ::
          l == k)
    && (forall l | Live(s.db, s.now, l) ::
          HoldsLatest(s.db, l) && s.db.tasks[s.db.leases[l].task].status !in {Pending, Blocked, Queued})
  }

  /** A session's task is RUNNING until the agent has written its verdict, and then final. */
  predicate StatusFits(x: Session, status: TaskStatus) {
    if x.wrote then x.phase != Executing && status in {Succeeded, Failed} else status == Running
  }

  predicate SessionOk(s: System, l: Id)
    requires l in s.sessions
  {
    HoldsLatest(s.db, l) && StatusFits(s.sessions[l], s.db.tasks[s.db.leases[l].task].status)
  }

  ghost predicate Owned(s: System) {
    && (forall l | l in s.sessions :: SessionOk(s, l))
    && (forall l, k | l in s.sessions && k in s.sessions && l in s.db.leases && k in s.db.leases
                      && s.db.leases[l].task == s.db.leases[k].task :: l == k)
    && (forall l | Live(s.db, s.now, l) :: l in s.sessions)
  }

  lemma OwnedMeansExclusive(s: System)
    requires Owned(s)
    ensures Exclusive(s)
  {
    forall l | Live(s.db, s.now, l)
      ensures HoldsLatest(s.db, l) && s.db.tasks[s.db.leases[l].task].status !in {Pending, Blocked, Queued}
    {
      assert SessionOk(s, l);
    }
  }

  /** A QUEUED task is held by nobody, so claiming it disturbs no session. */
  lemma ClaimDisturbsNobody(s: System, a: Action, l: Id)
    requires Owned(s) && Claims(s, a) && l in s.sessions
    ensures Known(s, l) && s.db.leases[l].task != a.task
    ensures Known(ClaimStep(s, a), l) && SessionOk(ClaimStep(s, a), l)
  {
    assert SessionOk(s, l);
    assert s.db.leases[l].exec != a.exec;
    hide Owned, BestClaim;
  }

  lemma ClaimKeepsOwned(s: System, a: Action)
    requires Owned(s) && Claims(s, a)
    ensures Owned(ClaimStep(s, a))
  {
    var s' := ClaimStep(s, a);
    assert SessionOk(s', a.lease) by { hide Owned, BestClaim; }
    forall l | l in s.sessions
      ensures Known(s, l) && Known(s', l) && SessionOk(s', l) && s.db.leases[l].task != a.task
      ensures s'.db.leases[l] == s.db.leases[l]
    {
      ClaimDisturbsNobody(s, a, l);
    }
    hide BestClaim, SessionOk;
    forall l, k | l in s'.sessions && k in s'.sessions && s'.db.leases[l].task == s'.db.leases[k].task
      ensures l == k
    {
      assert s'.db.leases[a.lease].task == a.task;
    }
    forall l | Live(s'.db, s'.now, l) ensures l in s'.sessions {
      if l != a.lease { assert Live(s.db, s.now, l); }
    }
  }

  lemma HolderStepKeepsOwned(s: System, s': System, l: Id)
    requires Owned(s) && Known(s, l) && Quiet(s, s') && HolderStep(s, s', l)
    ensures Owned(s')
  {
    forall k | k in s'.sessions ensures SessionOk(s', k) {
      assert SessionOk(s, k);
    }
    forall k | Live(s'.db, s'.now, k) ensures k in s'.sessions {
      if k != l { assert Live(s.db, s.now, k); }
    }
  }

  /** A step that leaves held tasks, leases and sessions alone. */
  lemma BystandingKeepsOwned(s: System, s': System)
    requires Owned(s) && Quiet(s, s') && s'.sessions == s.sessions && s'.db.leases == s.db.leases
    requires forall t | t in s.db.tasks && s.db.tasks[t].status !in {Pending, Blocked} ::
               s'.db.tasks[t] == s.db.tasks[t]
    ensures Owned(s')
  {
    forall k | k in s'.sessions ensures SessionOk(s', k) {
      assert SessionOk(s, k);
    }
    forall k | Live(s'.db, s'.now, k) ensures k in s'.sessions {
      assert Live(s.db, s.now, k);
    }
  }

  lemma AddTaskKeepsOwned(s: System, a: Action)
    requires Owned(s) && a.AddTask?
    ensures Owned(Next(s, a))
  {
    var s' := Next(s, a);
    forall k | k in s'.sessions ensures SessionOk(s', k) {
      assert SessionOk(s, k);
    }
  }

  lemma AddDependencyKeepsOwned(s: System, m: Id, dep: Dep)
    requires Owned(s)
    ensures Owned(AddDependencyStep(s, m, dep))
  {
    var s' := AddDependencyStep(s, m, dep);
    forall k | k in s'.sessions ensures SessionOk(s', k) {
      assert SessionOk(s, k);
    }
  }

  predicate ByHolder(a: Action) {
    a.Renew? || a.RuntimeReturn? || a.AssertOwnership? || a.VerifyReturn? || a.Raise?
    || a.Complete? || a.Fail? || a.Release?
  }

  /** Rows other than task t and lease l are as before. */
  ghost predicate Touches(a: Db, b: Db, t: Id, l: Id) {
    && (forall u | u in a.tasks && u != t :: u in b.tasks && b.tasks[u] == a.tasks[u])
    && (forall k | k in a.leases && k != l :: k in b.leases && b.leases[k] == a.leases[k])
  }

  /** What session l still needs after its own step. */
  ghost predicate Fits(s: System, s': System, l: Id)
    requires l in s.db.leases
  {
    && s.db.leases[l].task in s'.db.tasks
    && (l in s'.sessions ==> StatusFits(s'.sessions[l], s'.db.tasks[s.db.leases[l].task].status))
    && (Live(s'.db, s'.now, l) ==> l in s'.sessions)
  }

  /** A step by the holder of l: only its task, its lease and its session change, and they still fit. */
  ghost predicate HolderStep(s: System, s': System, l: Id)
    requires l in s.db.leases
  {
    && Touches(s.db, s'.db, s.db.leases[l].task, l) && Fits(s, s', l) && s'.now == s.now
    && (forall k | k in s.sessions && k != l :: k in s'.sessions && s'.sessions[k] == s.sessions[k])
  }

  ghost predicate Holding(s: System, l: Id) {
    Known(s, l) && SessionOk(s, l)
  }

  lemma RenewHolds(s: System, l: Id)
    requires Holding(s, l)
    ensures HolderStep(s, RenewStep(s, l), l)
  {
  }

  lemma ReleaseHolds(s: System, l: Id)
    requires Holding(s, l)
    ensures HolderStep(s, ReleaseStep(s, l), l)
  {
  }

  lemma RuntimeHolds(s: System, l: Id, o: Outcome)
    requires Holding(s, l)
    ensures HolderStep(s, RuntimeReturnStep(s, l, o), l)
  {
  }

  lemma AssertHolds(s: System, l: Id)
    requires Holding(s, l)
    ensures HolderStep(s, AssertOwnershipStep(s, l), l)
  {
  }

  lemma VerifyHolds(s: System, l: Id, ok: bool)
    requires Holding(s, l)
    ensures HolderStep(s, VerifyReturnStep(s, l, ok), l)
    ensures HolderStep(s, RaiseStep(s, l), l)
  {
  }

  lemma CompleteHolds(s: System, l: Id)
    requires Holding(s, l)
    ensures HolderStep(s, CompleteStep(s, l), l)
  {
  }

  lemma FailHolds(s: System, l: Id)
    requires Holding(s, l)
    ensures HolderStep(s, FailStep(s, l), l)
  {
  }

  lemma HolderSteps(s: System, a: Action)
    requires ByHolder(a) && Holding(s, a.lease)
    ensures HolderStep(s, Next(s, a), a.lease)
  {
    hide HolderStep, SessionOk, RenewStep, ReleaseStep, RuntimeReturnStep, AssertOwnershipStep, VerifyReturnStep,
      RaiseStep, CompleteStep, FailStep;
    match a
    case Renew(l) => RenewHolds(s, l);
    case RuntimeReturn(l, o) => RuntimeHolds(s, l, o);
    case AssertOwnership(l) => AssertHolds(s, l);
    case VerifyReturn(l, ok) => VerifyHolds(s, l, ok);
    case Raise(l) => VerifyHolds(s, l, true);
    case Complete(l) => CompleteHolds(s, l);
    case Fail(l) => FailHolds(s, l);
    case Release(l) => ReleaseHolds(s, l);
  }

  lemma ScheduleKeepsOwned(s: System, t: Id, from: TaskStatus, to: TaskStatus)
    requires Owned(s)
    ensures Owned(s.(db := ScheduleRows(s.db, t, from, to)))
  {
    QuietSchedule(s.db, t, from, to);
    BystandingKeepsOwned(s, s.(db := ScheduleRows(s.db, t, from, to)));
  }

  lemma TickKeepsOwned(s: System, delta: nat)
    requires Owned(s)
    ensures Owned(s.(now := s.now + delta))
  {
    QuietRefl(s.db);
    BystandingKeepsOwned(s, s.(now := s.now + delta));
  }

  lemma SetExecutingKeepsOwned(s: System, m: Id, on: bool)
    requires Owned(s)
    ensures Owned(SetExecutingStep(s, m, on))
  {
    QuietExecuting(s.db, SetExecutingStep(s, m, on).db.executing);
    BystandingKeepsOwned(s, SetExecutingStep(s, m, on));
  }

  lemma StrangersDoNothing(s: System, a: Action)
    requires ByHolder(a) && a.lease !in s.sessions
    ensures Next(s, a) == s
  {
  }

  lemma HolderKeepsOwned(s: System, a: Action)
    requires Inv(s) && Owned(s) && ByHolder(a)
    ensures Owned(Next(s, a))
  {
    InvMeansAttempted(s);
    assert s.sessions.Keys <= s.db.leases.Keys;
    assert a.lease in s.sessions ==> SessionOk(s, a.lease);
    hide Next, Owned, Inv, Quiet, HolderStep, SessionOk;
    if a.lease in s.sessions {
      QuietSteps(s, a);
      HolderSteps(s, a);
      HolderStepKeepsOwned(s, Next(s, a), a.lease);
    } else {
      StrangersDoNothing(s, a);
    }
  }

  lemma NextKeepsOwned(s: System, a: Action)
    requires Inv(s) && Owned(s) && !a.Recover?
    ensures Owned(Next(s, a))
  {
    hide Owned, Inv;
    if ByHolder(a) {
      hide Next;
      HolderKeepsOwned(s, a);
    } else {
      match a
      case AddTask(_, _, _, _, _, _) => AddTaskKeepsOwned(s, a);
      case AddDependency(m, dep) => AddDependencyKeepsOwned(s, m, dep);
      case Claim(_, _, _, _, _, _) => if Claims(s, a) { ClaimKeepsOwned(s, a); }
      case Schedule(t, from, to) => ScheduleKeepsOwned(s, t, from, to);
      case SetExecuting(m, on) => SetExecutingKeepsOwned(s, m, on);
      case Tick(d) => TickKeepsOwned(s, d);
    }
  }

  lemma {:induction false} RunsKeepOwned(now: int, ttl: int, acts: seq<Action>)
    requires WithoutRecovery(acts)
    ensures Owned(After(Init(now, ttl), acts))
  {
    if acts != [] {
      var front := acts[..|acts| - 1];
      RunsKeepOwned(now, ttl, front);
      RunsKeepInv(now, ttl, front);
      NextKeepsOwned(After(Init(now, ttl), front), acts[|acts| - 1]);
    }
  }

  /** In every run that run_forever can take, each task has at most one live lease. */
  lemma {:induction false} LeaseExclusivity(now: int, ttl: int, acts: seq<Action>)
    requires WithoutRecovery(acts)
    ensures Exclusive(After(Init(now, ttl), acts))
  {
    RunsKeepOwned(now, ttl, acts);
    OwnedMeansExclusive(After(Init(now, ttl), acts));
  }

  /**
   In such runs even a worker whose lease has run out is still alone on its task and on the task's latest
   execution, so whatever it completes or fails is its own attempt.
   */
  lemma {:induction false} NoSuccessorWithoutRecovery(now: int, ttl: int, acts: seq<Action>, l: Id)
    requires WithoutRecovery(acts) && l in After(Init(now, ttl), acts).sessions
    ensures var s := After(Init(now, ttl), acts);
            && HoldsLatest(s.db, l)
            && s.db.tasks[s.db.leases[l].task].status in {Running, Succeeded, Failed}
            && forall k | k in s.sessions && k in s.db.leases && s.db.leases[k].task == s.db.leases[l].task :: k == l
  {
    RunsKeepOwned(now, ttl, acts);
    hide After;
    assert SessionOk(After(Init(now, ttl), acts), l);
  }
}
