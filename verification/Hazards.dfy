/**
 Where single ownership ends: exactly the steps that requeue a task under a live lease,
 and runs in which recovery leads to them.
 */
module Hazards {
  import opened DagValidator
  import opened TaskStates
  import opened Tables
  import opened Protocol
  import opened Invariants
  import opened Exclusivity

  /** Somebody other than `except` holds the task under a live lease. */
  predicate HeldByAnother(s: System, t: Id, except: set<Id>) {
    exists k :: k in s.db.leases && k !in except && Live(s.db, s.now, k) && s.db.leases[k].task == t
  }

  /** _fail_task is about to put its task back in the queue. */
  predicate FailQueues(s: System, l: Id) {
    && Known(s, l) && At(s, l, Failing) && s.db.leases[l].task in s.db.tasks
    && FailedStatus(s.db.tasks[s.db.leases[l].task]) == Queued
  }

  /**
   The guards the code lacks: recovery requeues a task another lease still holds, or
   _fail_task, which checks no ownership, requeues a task that has a new holder.
   */
  predicate EndangersHolder(s: System, a: Action) {
    match a
    case Recover(l, _) => Recovers(s.db, s.now, l) && HeldByAnother(s, s.db.leases[l].task, {})
    case Fail(l) => FailQueues(s, l) && HeldByAnother(s, s.db.leases[l].task, {l})
    case _ => false
  }

  ghost predicate LivenessShrinks(s: System, s': System) {
    forall l | Live(s'.db, s'.now, l) :: Live(s.db, s.now, l)
  }

  /** Tasks outside `except` enter the queue only out of PENDING or BLOCKED. */
  ghost predicate OnlySchedulingQueues(s: System, s': System) {
    forall t | t in s.db.tasks && t in s'.db.tasks && s'.db.tasks[t].status == Queued ::
      s.db.tasks[t].status in {Pending, Blocked, Queued}
  }

  lemma QuietKeepsLatest(s: System, s': System, l: Id)
    requires Quiet(s, s') && HoldsLatest(s.db, l)
    ensures HoldsLatest(s'.db, l) && s'.db.leases[l].task == s.db.leases[l].task
  {
  }

  /** The leases live after a quiet step were live before it, so only statuses can spoil exclusivity. */
  lemma QuietKeepsExclusiveIff(s: System, s': System)
    requires Exclusive(s) && Quiet(s, s') && LivenessShrinks(s, s')
    ensures Exclusive(s') <==>
              forall l | Live(s'.db, s'.now, l) && HoldsLatest(s'.db, l) ::
                s'.db.tasks[s'.db.leases[l].task].status !in {Pending, Blocked, Queued}
  {
    forall l | Live(s'.db, s'.now, l)
      ensures Live(s.db, s.now, l) && HoldsLatest(s'.db, l) && s'.db.leases[l].task == s.db.leases[l].task
    {
      QuietKeepsLatest(s, s', l);
    }
    hide Quiet, HoldsLatest;
  }

  lemma QuietKeepsExclusive(s: System, s': System)
    requires Exclusive(s) && Quiet(s, s') && LivenessShrinks(s, s') && OnlySchedulingQueues(s, s')
    ensures Exclusive(s')
  {
    QuietKeepsExclusiveIff(s, s');
    forall l | Live(s'.db, s'.now, l) && HoldsLatest(s'.db, l)
      ensures s'.db.tasks[s'.db.leases[l].task].status !in {Pending, Blocked, Queued}
    {
      QuietKeepsLatest(s, s', l);
      assert Live(s.db, s.now, l);
      assert s.db.tasks[s.db.leases[l].task].status !in {Pending, Blocked, Queued};
      assert s'.db.tasks[s'.db.leases[l].task].status
             in {s.db.tasks[s.db.leases[l].task].status, Queued, Succeeded, Failed};
    }
  }

  lemma RuntimeIsSafe(s: System, l: Id, o: Outcome)
    ensures LivenessShrinks(s, RuntimeReturnStep(s, l, o)) && OnlySchedulingQueues(s, RuntimeReturnStep(s, l, o))
  {
  }

  lemma CompleteIsSafe(s: System, l: Id)
    ensures LivenessShrinks(s, CompleteStep(s, l)) && OnlySchedulingQueues(s, CompleteStep(s, l))
  {
  }

  lemma {:induction false} OthersAreSafe(s: System, a: Action)
    requires !Inserts(a) && !a.Fail? && !a.Recover? && !a.RuntimeReturn? && !a.Complete?
    ensures LivenessShrinks(s, Next(s, a)) && OnlySchedulingQueues(s, Next(s, a))
  {
  }

  lemma {:induction false} ClaimSparesHolder(s: System, a: Action, l: Id)
    requires Exclusive(s) && Claims(s, a) && Live(ClaimStep(s, a).db, s.now, l) && l != a.lease
    ensures var s' := ClaimStep(s, a);
            && Live(s.db, s.now, l) && s.db.leases[l].task != a.task && HoldsLatest(s'.db, l)
            && s'.db.leases[l] == s.db.leases[l]
            && s'.db.tasks[s'.db.leases[l].task].status !in {Pending, Blocked, Queued}
  {
    assert Live(s.db, s.now, l) && HoldsLatest(s.db, l);
    assert s.db.leases[l].exec != a.exec && s.db.leases[l].task != a.task;
    hide BestClaim, Exclusive;
  }

  lemma {:induction false} ClaimKeepsExclusive(s: System, a: Action)
    requires Exclusive(s) && Claims(s, a)
    ensures Exclusive(ClaimStep(s, a))
  {
    var s' := ClaimStep(s, a);
    assert HoldsLatest(s'.db, a.lease) && s'.db.leases[a.lease].task == a.task
           && s'.db.tasks[a.task].status == Running && s'.now == s.now by { hide BestClaim, Exclusive; }
    forall l | Live(s'.db, s'.now, l) && l != a.lease
      ensures Live(s.db, s.now, l) && s.db.leases[l].task != a.task && HoldsLatest(s'.db, l)
      ensures s'.db.leases[l] == s.db.leases[l]
      ensures s'.db.tasks[s'.db.leases[l].task].status !in {Pending, Blocked, Queued}
    {
      hide ClaimStep, Exclusive, HoldsLatest;
      ClaimSparesHolder(s, a, l);
    }
    hide ClaimStep, BestClaim, HoldsLatest;
  }

  lemma {:induction false} InsertsKeepExclusive(s: System, a: Action)
    requires Exclusive(s) && Inserts(a)
    ensures Exclusive(Next(s, a))
  {
    hide Exclusive, ClaimStep, AddTaskStep, AddDependencyStep;
    match a
    case Claim(_, _, _, _, _, _) =>
      if Claims(s, a) { ClaimKeepsExclusive(s, a); } else { IdleClaim(s, a); }
    case AddTask(_, _, _, _, _, _) => AddTaskKeepsExclusive(s, a);
    case AddDependency(m, dep) => AddDependencyKeepsExclusive(s, m, dep);
  }

  lemma {:induction false} AddDependencyKeepsExclusive(s: System, m: Id, dep: Dep)
    requires Exclusive(s)
    ensures Exclusive(AddDependencyStep(s, m, dep))
  {
    var s' := AddDependencyStep(s, m, dep);
    hide MayAdd;
    assert s'.db.tasks == s.db.tasks && s'.db.leases == s.db.leases && s'.db.execs == s.db.execs && s'.now == s.now;
    hide AddDependencyStep;
    assert forall l :: Live(s'.db, s'.now, l) <==> Live(s.db, s.now, l);
    assert forall l :: HoldsLatest(s'.db, l) <==> HoldsLatest(s.db, l);
    hide Live, HoldsLatest;
  }

  lemma {:induction false} AddTaskKeepsExclusive(s: System, a: Action)
    requires Exclusive(s) && a.AddTask?
    ensures Exclusive(AddTaskStep(s, a.id, a.inMission, a.taskType, a.priority, a.createdAt, a.maxAttempts))
  {
    var s' := AddTaskStep(s, a.id, a.inMission, a.taskType, a.priority, a.createdAt, a.maxAttempts);
    forall l | Live(s'.db, s'.now, l)
      ensures HoldsLatest(s'.db, l) && s'.db.tasks[s'.db.leases[l].task].status !in {Pending, Blocked, Queued}
    {
      assert Live(s.db, s.now, l) && HoldsLatest(s.db, l);
    }
  }

  /** Step s' puts task t in the queue and leaves the other tasks' statuses alone. */
  ghost predicate Requeues(s: System, s': System, t: Id) {
    && t in s.db.tasks && t in s'.db.tasks && s'.db.tasks[t].status == Queued
    && (forall u | u in s.db.tasks && u != t :: u in s'.db.tasks && s'.db.tasks[u].status == s.db.tasks[u].status)
  }

  /** Exactly the leases in `ended` stop being live. */
  ghost predicate Ends(s: System, s': System, ended: set<Id>) {
    forall l | l in s.db.leases :: Live(s'.db, s'.now, l) <==> Live(s.db, s.now, l) && l !in ended
  }

  lemma RequeueKeepsExclusiveIff(s: System, s': System, t: Id, ended: set<Id>)
    requires Exclusive(s) && Quiet(s, s') && Requeues(s, s', t) && Ends(s, s', ended)
    ensures Exclusive(s') <==> !HeldByAnother(s, t, ended)
  {
    assert LivenessShrinks(s, s');
    QuietKeepsExclusiveIff(s, s');
    forall k | Live(s'.db, s'.now, k)
      ensures HoldsLatest(s'.db, k) && s'.db.leases[k].task == s.db.leases[k].task
      ensures Live(s.db, s.now, k) && s.db.tasks[s.db.leases[k].task].status !in {Pending, Blocked, Queued}
    {
      QuietKeepsLatest(s, s', k);
    }
    hide Quiet, Exclusive, HoldsLatest;
  }

  /** _fail_task changes one task, and expires one lease. */
  lemma FailRequeues(s: System, l: Id)
    ensures LivenessShrinks(s, FailStep(s, l))
    ensures if FailQueues(s, l) then Requeues(s, FailStep(s, l), s.db.leases[l].task) && Ends(s, FailStep(s, l), {l})
            else OnlySchedulingQueues(s, FailStep(s, l))
  {
  }

  lemma {:induction false} FailKeepsExclusiveIff(s: System, l: Id)
    requires SessionsAttempted(s) && Exclusive(s)
    ensures Exclusive(FailStep(s, l)) <==> !EndangersHolder(s, Fail(l))
  {
    hide SessionsAttempted, FailStep, Exclusive, Quiet, LivenessShrinks, OnlySchedulingQueues, Requeues, Ends,
      HeldByAnother;
    QuietSteps(s, Fail(l));
    FailRequeues(s, l);
    if FailQueues(s, l) {
      RequeueKeepsExclusiveIff(s, FailStep(s, l), s.db.leases[l].task, {l});
    } else {
      QuietKeepsExclusive(s, FailStep(s, l));
    }
  }

  lemma {:induction false} RecoverKeepsExclusiveIff(s: System, l: Id, skipped: set<Id>)
    requires Exclusive(s)
    ensures Exclusive(Next(s, Recover(l, skipped))) <==> !EndangersHolder(s, Recover(l, skipped))
  {
    var s' := Next(s, Recover(l, skipped));
    QuietRecover(s.db, s.now, l, skipped);
    if Recovers(s.db, s.now, l) {
      assert Requeues(s, s', s.db.leases[l].task) && Ends(s, s', {});
      hide Exclusive, Quiet, QuietDb;
      RequeueKeepsExclusiveIff(s, s', s.db.leases[l].task, {});
    }
  }

  lemma {:induction false} OthersKeepExclusive(s: System, a: Action)
    requires SessionsAttempted(s) && Exclusive(s) && !Inserts(a) && !a.Fail? && !a.Recover?
    ensures Exclusive(Next(s, a))
  {
    QuietSteps(s, a);
    hide SessionsAttempted, Quiet, Exclusive, LivenessShrinks, OnlySchedulingQueues;
    match a
    case RuntimeReturn(l, o) => hide RuntimeReturnStep; RuntimeIsSafe(s, l, o); QuietKeepsExclusive(s, Next(s, a));
    case Complete(l) => hide CompleteStep; CompleteIsSafe(s, l); QuietKeepsExclusive(s, Next(s, a));
    case _ =>
      OthersAreSafe(s, a);
      hide Next;
      QuietKeepsExclusive(s, Next(s, a));
  }

  /**
   Single ownership survives a step if and only if the step does not requeue a task that
   somebody (else) holds; the two missing guards are the only ways to lose it.
   */
  lemma {:induction false} ExclusivityKeptIff(s: System, a: Action)
    requires Inv(s) && Exclusive(s)
    ensures Exclusive(Next(s, a)) <==> !EndangersHolder(s, a)
  {
    InvMeansAttempted(s);
    hide Inv, Exclusive, SessionsAttempted, HeldByAnother;
    match a
    case Recover(l, skipped) => RecoverKeepsExclusiveIff(s, l, skipped);
    case Fail(l) => hide EndangersHolder, FailStep; FailKeepsExclusiveIff(s, l);
    case _ =>
      hide Next;
      if Inserts(a) { InsertsKeepExclusive(s, a); } else { OthersKeepExclusive(s, a); }
  }
}
