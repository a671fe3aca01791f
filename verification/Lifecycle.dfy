/**
 How a task's status moves over whole runs: along legal paths only, a bounded number of
 times, with its attempts counted exactly.
 */
module Lifecycle {
  import opened DagValidator
  import opened TaskStates
  import opened Tables
  import opened Protocol
  import opened Invariants
  import opened Exclusivity

  // ------------------------------------------------------------------ legal paths

  lemma MovesAreLegal(row: TaskRow, to: TaskStatus)
    requires Moves(row, to)
    ensures LegalPath(row.status, to)
  {
    match row.status
    case Pending => if to == Blocked { LegalBy([Pending, Blocked]); } else { LegalBy([Pending, Ready, Queued]); }
    case Blocked => LegalBy([Blocked, Ready, Queued]);
    case Queued => LegalBy([Queued, Running, to]);
    case Running => if to == Queued { LegalBy([Running, Failed, Retrying, Queued]); } else { LegalBy([Running, to]); }
    case Failed => LegalBy([Failed, Retrying, Queued]);
  }

  /** What one step may do to one task. */
  ghost predicate TaskStep(row: TaskRow, row': TaskRow) {
    || (row' == row.(status := row'.status) && (row' == row || Moves(row, row'.status)))
    || (row.status == Queued && row' == row.(status := Running, attemptCount := row.attemptCount + 1,
                                             assignedTo := row'.assignedTo))
  }

  lemma {:induction false} TasksStep(s: System, a: Action, t: Id)
    requires Inv(s) && t in s.db.tasks
    ensures t in Next(s, a).db.tasks && TaskStep(s.db.tasks[t], Next(s, a).db.tasks[t])
  {
    if !Inserts(a) {
      InvMeansAttempted(s);
      QuietSteps(s, a);
      hide Next;
    }
    hide Inv;
  }

  /** Every committed status change is a path of the task state machine's table. */
  lemma {:induction false} CommittedMovesAreLegal(now: int, ttl: int, acts: seq<Action>, a: Action, t: Id)
    requires t in After(Init(now, ttl), acts).db.tasks
    ensures var s := After(Init(now, ttl), acts);
            && t in Next(s, a).db.tasks
            && LegalPath(s.db.tasks[t].status, Next(s, a).db.tasks[t].status)
            && s.db.tasks[t].status !in {Ready, Retrying, Cancelled}
  {
    var s := After(Init(now, ttl), acts);
    RunsKeepInv(now, ttl, acts);
    TasksStep(s, a, t);
    assert TaskOk(s.db.tasks[t]);
    hide Next, After, Inv;
    var row, row' := s.db.tasks[t], Next(s, a).db.tasks[t];
    if row'.status == row.status {
      LegalBy([row.status]);
    } else if Moves(row, row'.status) {
      MovesAreLegal(row, row'.status);
    } else {
      LegalBy([Queued, Running]);
    }
  }

  // -------------------------------------------------------- counting status changes

  predicate Changed(s: System, s': System, t: Id) {
    t in s.db.tasks && t in s'.db.tasks && s.db.tasks[t].status != s'.db.tasks[t].status
  }

  ghost function StatusChanges(start: System, acts: seq<Action>, t: Id): nat {
    if acts == [] then 0
    else
      var front := acts[..|acts| - 1];
      StatusChanges(start, front, t) + if Changed(After(start, front), After(start, acts), t) then 1 else 0
  }

  /** The most status changes a task can still go through, when nobody recovers. */
  function Remaining(row: TaskRow): int {
    var r := Limit(row) - row.attemptCount;
    match row.status
    case Pending => 3 * r + 1
    case Blocked => 3 * r
    case Queued => 3 * r - 1
    case Running => 3 * r + 1
    case Failed => 3 * r
    case _ => 0
  }

  lemma {:induction false} NoTaskNoChange(now: int, ttl: int, acts: seq<Action>, t: Id)
    requires t !in After(Init(now, ttl), acts).db.tasks
    ensures StatusChanges(Init(now, ttl), acts, t) == 0
  {
    if acts != [] {
      var front := acts[..|acts| - 1];
      var s, a := After(Init(now, ttl), front), acts[|acts| - 1];
      RunsKeepInv(now, ttl, front);
      if t in s.db.tasks {
        TasksStep(s, a, t);
      } else {
        hide Next, Inv;
        NoTaskNoChange(now, ttl, front, t);
      }
    }
  }

  /** Tasks appear PENDING and unclaimed. */
  lemma {:induction false} FreshTask(s: System, a: Action, t: Id)
    requires t !in s.db.tasks && t in Next(s, a).db.tasks && SessionsAttempted(s)
    ensures Next(s, a).db.tasks[t].status == Pending && Next(s, a).db.tasks[t].attemptCount == 0
  {
    if !Inserts(a) {
      QuietSteps(s, a);
      hide Next;
    }
  }

  /** Without recovery, a queued task is only ever claimed: no agent of an earlier claim is still running. */
  lemma {:induction false} QueuedIsClaimedNext(s: System, a: Action, t: Id)
    requires Owned(s) && !a.Recover? && t in s.db.tasks && s.db.tasks[t].status == Queued
    ensures t in Next(s, a).db.tasks && Next(s, a).db.tasks[t].status in {Queued, Running}
  {
    hide Next;
    if ByHolder(a) {
      if a.lease in s.sessions {
        assert SessionOk(s, a.lease);
        HolderSteps(s, a);
        assert s.db.leases[a.lease].task != t;
      } else {
        StrangersDoNothing(s, a);
      }
    } else {
      hide Owned;
      NobodyElseClears(s, a, t);
    }
  }

  lemma {:induction false} NobodyElseClears(s: System, a: Action, t: Id)
    requires !ByHolder(a) && !a.Recover? && t in s.db.tasks && s.db.tasks[t].status == Queued
    ensures t in Next(s, a).db.tasks && Next(s, a).db.tasks[t].status in {Queued, Running}
  {
  }

  lemma StepSpends(row: TaskRow, row': TaskRow)
    requires TaskOk(row) && TaskStep(row, row')
    requires row.status == Queued ==> row'.status in {Queued, Running}
    ensures Remaining(row') + (if row'.status != row.status then 1 else 0) <= Remaining(row)
    ensures Limit(row') == Limit(row)
  {
  }

  /**
   In a run without recovery a task allowing n attempts changes status at most 3n + 1 times,
   and at any moment at most Remaining(row) changes are still to come.
   */
  lemma {:induction false} StatusChangesBounded(now: int, ttl: int, acts: seq<Action>, t: Id)
    requires WithoutRecovery(acts) && t in After(Init(now, ttl), acts).db.tasks
    ensures var row := After(Init(now, ttl), acts).db.tasks[t];
            && StatusChanges(Init(now, ttl), acts, t) + Remaining(row) <= 3 * Limit(row) + 1
            && Remaining(row) >= 0
  {
    var front := acts[..|acts| - 1];
    var s, a := After(Init(now, ttl), front), acts[|acts| - 1];
    assert WithoutRecovery(front) && !a.Recover?;
    RunsKeepInv(now, ttl, front);
    RunsKeepInv(now, ttl, acts);
    RunsKeepOwned(now, ttl, front);
    assert TaskOk(After(Init(now, ttl), acts).db.tasks[t]);
    if t in s.db.tasks {
      StatusChangesBounded(now, ttl, front, t);
      TasksStep(s, a, t);
      if s.db.tasks[t].status == Queued { QueuedIsClaimedNext(s, a, t); }
      assert TaskOk(s.db.tasks[t]);
      hide Inv, Owned, Next;
      StepSpends(s.db.tasks[t], Next(s, a).db.tasks[t]);
    } else {
      InvMeansAttempted(s);
      FreshTask(s, a, t);
      NoTaskNoChange(now, ttl, front, t);
      hide Inv, Owned, Next;
    }
  }

  // ------------------------------------------------------------- and with recovery

  /** The open sessions on t whose agent has not returned yet; each may still move t by itself. */
  ghost function Unreturned(s: System, t: Id): set<Id> {
    set l | l in s.sessions && s.sessions[l].phase == Executing && l in s.db.leases && s.db.leases[l].task == t
  }

  /** An upper bound on the status changes still possible when anybody may recover. */
  ghost function Budget(s: System, t: Id): int
    requires t in s.db.tasks
  {
    Left(s.db.tasks[t], |Unreturned(s, t)|)
  }

  /**
   What the row and the outstanding agents allow.  Each attempt left is worth four changes; each agent still
   out may fail the task once more and have it requeued, but only while there are attempts left.
   */
  function Left(row: TaskRow, open: nat): int {
    var r := Limit(row) - row.attemptCount;
    match row.status
    case Pending => 2 * open + 4 * r
    case Blocked => 2 * open + 4 * r - 1
    case Queued => 2 * open + 4 * r - 2
    case Running => if r <= 0 then 1 else 2 * open + 4 * r - 1
    case Failed => if r <= 0 then 0 else 2 * open + 4 * r - 1
    case _ => 0
  }

  lemma SmallerSet(a: set<Id>, b: set<Id>)
    requires a <= b
    ensures |a| <= |b|
  {
    if a != b {
      assert b == a + (b - a);
    }
  }

  /** An agent that returns is no longer outstanding. */
  lemma {:induction false} ReturnSpends(s: System, l: Id, o: Outcome)
    requires Known(s, l) && At(s, l, Executing)
    ensures var t := s.db.leases[l].task;
            |Unreturned(RuntimeReturnStep(s, l, o), t)| + 1 <= |Unreturned(s, t)|
    ensures forall t :: Unreturned(RuntimeReturnStep(s, l, o), t) <= Unreturned(s, t)
  {
    var t, s' := s.db.leases[l].task, RuntimeReturnStep(s, l, o);
    RuntimeKeepsLeases(s, l, o);
    hide RuntimeReturnStep;
    assert Unreturned(s', t) == Unreturned(s, t) - {l};
  }

  lemma RuntimeKeepsLeases(s: System, l: Id, o: Outcome)
    requires Known(s, l) && At(s, l, Executing)
    ensures RuntimeReturnStep(s, l, o).db.leases == s.db.leases
    ensures RuntimeReturnStep(s, l, o).sessions == s.sessions[l := Session(RuntimeDone, !o.Untouched?)]
  {
  }

  lemma {:induction false} NobodyStarts(s: System, a: Action, t: Id)
    requires SessionsAttempted(s) && !Inserts(a)
    ensures Unreturned(Next(s, a), t) <= Unreturned(s, t)
  {
    QuietSteps(s, a);
    PhasesAdvance(s, a);
    hide Next;
  }

  lemma PhasesAdvance(s: System, a: Action)
    requires !Inserts(a)
    ensures forall l | At(Next(s, a), l, Executing) :: At(s, l, Executing)
  {
    hide RuntimeRows, CompleteRows, FailRows, RenewRows, ReleaseRows, RecoverRows, ScheduleRows;
  }

  lemma {:induction false} ClaimStarts(s: System, a: Action, t: Id)
    requires Claims(s, a) && LeasesOk(s)
    ensures Unreturned(ClaimStep(s, a), t) <= Unreturned(s, t) + if t == a.task then {a.lease} else {}
    ensures |Unreturned(ClaimStep(s, a), t)| <= |Unreturned(s, t)| + if t == a.task then 1 else 0
  {
    assert a.lease !in s.sessions;
    hide BestClaim, LeasesOk;
    var more := if t == a.task then {a.lease} else {};
    assert Unreturned(ClaimStep(s, a), t) <= Unreturned(s, t) + more;
    SmallerSet(Unreturned(ClaimStep(s, a), t), Unreturned(s, t) + more);
  }

  /** The moves that only an agent's verdict makes: out of the queue, or to FAILED with attempts left. */
  predicate ByVerdict(row: TaskRow, to: TaskStatus) {
    (row.status == Queued && to in {Succeeded, Failed})
    || (row.status == Running && to == Failed && row.attemptCount < Limit(row))
  }

  /** Every move spends, when a claim sends out one more agent and a verdict takes one back. */
  lemma RowSpends(row: TaskRow, row': TaskRow, open: nat, open': nat)
    requires TaskOk(row) && TaskStep(row, row')
    requires open' <= open + if row.status == Queued && row'.status == Running then 1 else 0
    requires ByVerdict(row, row'.status) ==> open' + 1 <= open
    ensures Left(row', open') + (if row'.status != row.status then 1 else 0) <= Left(row, open)
    ensures Limit(row') == Limit(row)
  {
  }

  lemma {:induction false} FailIsNoVerdict(s: System, l: Id, t: Id)
    requires t in s.db.tasks && t in FailStep(s, l).db.tasks && TaskOk(s.db.tasks[t])
    ensures !ByVerdict(s.db.tasks[t], FailStep(s, l).db.tasks[t].status)
  {
  }

  lemma {:induction false} CompleteIsNoVerdict(s: System, l: Id, t: Id)
    requires t in s.db.tasks && t in CompleteStep(s, l).db.tasks
    ensures !ByVerdict(s.db.tasks[t], CompleteStep(s, l).db.tasks[t].status)
  {
  }

  lemma {:induction false} OthersAreNoVerdict(s: System, a: Action, t: Id)
    requires !a.Fail? && !a.Complete? && !a.RuntimeReturn?
    requires t in s.db.tasks && t in Next(s, a).db.tasks
    ensures !ByVerdict(s.db.tasks[t], Next(s, a).db.tasks[t].status)
  {
  }

  lemma {:induction false} ReturnIsVerdict(s: System, l: Id, o: Outcome, t: Id)
    requires t in s.db.tasks && t in RuntimeReturnStep(s, l, o).db.tasks
    requires ByVerdict(s.db.tasks[t], RuntimeReturnStep(s, l, o).db.tasks[t].status)
    ensures Known(s, l) && At(s, l, Executing) && s.db.leases[l].task == t
  {
  }

  lemma {:induction false} VerdictIsReturn(s: System, a: Action, t: Id)
    requires t in s.db.tasks && t in Next(s, a).db.tasks && TaskOk(s.db.tasks[t])
    requires ByVerdict(s.db.tasks[t], Next(s, a).db.tasks[t].status)
    ensures a.RuntimeReturn? && Known(s, a.lease) && At(s, a.lease, Executing) && s.db.leases[a.lease].task == t
  {
    hide ByVerdict, FailStep, CompleteStep, RuntimeReturnStep;
    match a
    case Fail(l) => FailIsNoVerdict(s, l, t);
    case Complete(l) => CompleteIsNoVerdict(s, l, t);
    case RuntimeReturn(l, o) => ReturnIsVerdict(s, l, o, t);
    case _ => hide Next; OthersAreNoVerdict(s, a, t);
  }

  lemma {:induction false} ClaimSpends(s: System, a: Action, t: Id)
    requires Inv(s) && Claims(s, a) && t in s.db.tasks && t in ClaimStep(s, a).db.tasks
    requires TaskStep(s.db.tasks[t], ClaimStep(s, a).db.tasks[t])
    ensures Budget(ClaimStep(s, a), t) + (if Changed(s, ClaimStep(s, a), t) then 1 else 0) <= Budget(s, t)
  {
    var s' := ClaimStep(s, a);
    assert LeasesOk(s);
    InvMeansTaskOk(s, t);
    hide *;
    ClaimStarts(s, a, t);
    ClaimedRow(s, a, t);
    RowSpends(s.db.tasks[t], s'.db.tasks[t], |Unreturned(s, t)|, |Unreturned(s', t)|);
    BudgetIsLeft(s, t);
    BudgetIsLeft(s', t);
    ChangedRow(s, s', t);
  }

  lemma BudgetIsLeft(s: System, t: Id)
    requires t in s.db.tasks
    ensures Budget(s, t) == Left(s.db.tasks[t], |Unreturned(s, t)|)
  {
  }

  lemma ChangedRow(s: System, s': System, t: Id)
    requires t in s.db.tasks && t in s'.db.tasks
    ensures Changed(s, s', t) <==> s.db.tasks[t].status != s'.db.tasks[t].status
  {
  }

  lemma ClaimedRow(s: System, a: Action, t: Id)
    requires Claims(s, a) && t in s.db.tasks
    ensures t in ClaimStep(s, a).db.tasks
    ensures if t == a.task then s.db.tasks[t].status == Queued && ClaimStep(s, a).db.tasks[t].status == Running
            else ClaimStep(s, a).db.tasks[t] == s.db.tasks[t]
    ensures !ByVerdict(s.db.tasks[t], ClaimStep(s, a).db.tasks[t].status)
  {
    hide NoLater, HasSucceeded;
  }

  lemma {:induction false} QuietSpends(s: System, a: Action, t: Id)
    requires SessionsAttempted(s) && !Inserts(a) && t in s.db.tasks && t in Next(s, a).db.tasks
    requires TaskOk(s.db.tasks[t]) && TaskStep(s.db.tasks[t], Next(s, a).db.tasks[t])
    ensures Budget(Next(s, a), t) + (if Changed(s, Next(s, a), t) then 1 else 0) <= Budget(s, t)
  {
    var s' := Next(s, a);
    NobodyStarts(s, a, t);
    SmallerSet(Unreturned(s', t), Unreturned(s, t));
    if ByVerdict(s.db.tasks[t], s'.db.tasks[t].status) {
      VerdictIsReturn(s, a, t);
      ReturnSpends(s, a.lease, a.outcome);
    }
    hide SessionsAttempted, Next, Unreturned, TaskStep, TaskOk, ByVerdict;
    RowSpends(s.db.tasks[t], s'.db.tasks[t], |Unreturned(s, t)|, |Unreturned(s', t)|);
  }

  lemma {:induction false} InsertSpends(s: System, a: Action, t: Id)
    requires (a.AddTask? || a.AddDependency?) && t in s.db.tasks
    ensures t in Next(s, a).db.tasks && Budget(Next(s, a), t) == Budget(s, t) && !Changed(s, Next(s, a), t)
  {
    assert Unreturned(Next(s, a), t) == Unreturned(s, t);
  }

  lemma {:induction false} StepSpendsBudget(s: System, a: Action, t: Id)
    requires Inv(s) && t in s.db.tasks
    ensures t in Next(s, a).db.tasks && Limit(Next(s, a).db.tasks[t]) == Limit(s.db.tasks[t])
    ensures Budget(Next(s, a), t) + (if Changed(s, Next(s, a), t) then 1 else 0) <= Budget(s, t)
  {
    TasksStep(s, a, t);
    InvMeansAttempted(s);
    assert TaskOk(s.db.tasks[t]);
    hide Budget, Inv, SessionsAttempted, Unreturned, ClaimStep;
    if !Inserts(a) {
      hide Next;
      QuietSpends(s, a, t);
    } else if a.Claim? {
      if Claims(s, a) {
        ClaimSpends(s, a, t);
      } else {
        IdleClaim(s, a);
      }
    } else {
      hide Next;
      InsertSpends(s, a, t);
    }
  }

  lemma {:induction false} NobodyHoldsUnknownTask(s: System, t: Id)
    requires LeasesOk(s) && t !in s.db.tasks
    ensures Unreturned(s, t) == {}
  {
  }

  lemma {:induction false} FreshBudget(s: System, a: Action, t: Id)
    requires Inv(s) && t !in s.db.tasks && t in Next(s, a).db.tasks
    ensures Budget(Next(s, a), t) == 4 * Limit(Next(s, a).db.tasks[t])
  {
    InvMeansAttempted(s);
    FreshTask(s, a, t);
    NobodyHoldsUnknownTask(s, t);
    OnlyAddTaskAdds(s, a, t);
    hide Inv;
    assert Unreturned(Next(s, a), t) == Unreturned(s, t);
  }

  lemma {:induction false} OnlyAddTaskAdds(s: System, a: Action, t: Id)
    requires SessionsAttempted(s) && t !in s.db.tasks && t in Next(s, a).db.tasks
    ensures a.AddTask?
  {
    if !Inserts(a) {
      QuietSteps(s, a);
      hide Next;
    }
    hide SessionsAttempted;
  }

  lemma {:induction false} BudgetIsPositive(s: System, t: Id)
    requires t in s.db.tasks && TaskOk(s.db.tasks[t])
    ensures Budget(s, t) >= 0
  {
  }

  /**
   In any run, with any number of workers recovering at any time, a task allowing n attempts
   changes status at most 4n times.
   */
  lemma {:induction false} StatusChangesBoundedUnderRecovery(now: int, ttl: int, acts: seq<Action>, t: Id)
    requires t in After(Init(now, ttl), acts).db.tasks
    ensures var s := After(Init(now, ttl), acts);
            && StatusChanges(Init(now, ttl), acts, t) + Budget(s, t) <= 4 * Limit(s.db.tasks[t])
            && Budget(s, t) >= 0
  {
    var front := acts[..|acts| - 1];
    var s, a := After(Init(now, ttl), front), acts[|acts| - 1];
    RunsKeepInv(now, ttl, front);
    RunsKeepInv(now, ttl, acts);
    assert TaskOk(After(Init(now, ttl), acts).db.tasks[t]);
    BudgetIsPositive(After(Init(now, ttl), acts), t);
    hide Inv, Next, Budget, TaskOk, Limit;
    if t in s.db.tasks {
      StatusChangesBoundedUnderRecovery(now, ttl, front, t);
      StepSpendsBudget(s, a, t);
    } else {
      FreshBudget(s, a, t);
      NoTaskNoChange(now, ttl, front, t);
    }
  }

  // --------------------------------------------------------------- attempts counted

  /** How often task t is claimed in the run. */
  ghost function ClaimCount(start: System, acts: seq<Action>, t: Id): nat {
    if acts == [] then 0
    else
      var front, a := acts[..|acts| - 1], acts[|acts| - 1];
      ClaimCount(start, front, t) + if Claims(After(start, front), a) && a.task == t then 1 else 0
  }

  lemma {:induction false} ClaimBumps(s: System, a: Action, t: Id)
    requires Inv(s) && t in s.db.tasks
    ensures t in Next(s, a).db.tasks && Next(s, a).db.tasks[t].maxAttempts == s.db.tasks[t].maxAttempts
    ensures Next(s, a).db.tasks[t].attemptCount
            == s.db.tasks[t].attemptCount + if Claims(s, a) && a.task == t then 1 else 0
  {
    if !Inserts(a) {
      InvMeansAttempted(s);
      QuietSteps(s, a);
      hide Next;
    }
    hide Inv;
  }

  lemma {:induction false} UnknownIsUnclaimed(now: int, ttl: int, acts: seq<Action>, t: Id)
    requires t !in After(Init(now, ttl), acts).db.tasks
    ensures ClaimCount(Init(now, ttl), acts, t) == 0
  {
    if acts != [] {
      var front := acts[..|acts| - 1];
      var s, a := After(Init(now, ttl), front), acts[|acts| - 1];
      RunsKeepInv(now, ttl, front);
      if t in s.db.tasks {
        ClaimBumps(s, a, t);
      } else {
        hide Next, Inv;
        UnknownIsUnclaimed(now, ttl, front, t);
      }
    }
  }

  lemma {:induction false} AttemptsAreClaims(now: int, ttl: int, acts: seq<Action>, t: Id)
    requires t in After(Init(now, ttl), acts).db.tasks
    ensures After(Init(now, ttl), acts).db.tasks[t].attemptCount == ClaimCount(Init(now, ttl), acts, t)
  {
    var front := acts[..|acts| - 1];
    var s, a := After(Init(now, ttl), front), acts[|acts| - 1];
    RunsKeepInv(now, ttl, front);
    if t in s.db.tasks {
      AttemptsAreClaims(now, ttl, front, t);
      ClaimBumps(s, a, t);
    } else {
      InvMeansAttempted(s);
      FreshTask(s, a, t);
      OnlyAddTaskAdds(s, a, t);
      hide Next, Inv;
      UnknownIsUnclaimed(now, ttl, front, t);
    }
  }

  /**
   Attempt accounting, recovery included: a task's executions are numbered exactly 1 to its
   number of claims; a queued task may be claimed again; and the claims stay within
   max_attempts exactly when it is at least 1, for even a limit of 0 or less allows one claim.
   */
  lemma {:induction false} AttemptAccounting(now: int, ttl: int, acts: seq<Action>, t: Id)
    requires t in After(Init(now, ttl), acts).db.tasks
    ensures var s, n := After(Init(now, ttl), acts), ClaimCount(Init(now, ttl), acts, t);
            var row := s.db.tasks[t];
            && row.attemptCount == n
            && (forall k :: 1 <= k <= n <==> HasAttempt(s.db.execs, t, k))
            && (forall e, f, k | IsAttempt(s.db.execs, e, t, k) && IsAttempt(s.db.execs, f, t, k) :: e == f)
            && (row.status == Queued ==> n < Limit(row))
            && (n <= row.maxAttempts <==> row.maxAttempts >= 1 || (row.maxAttempts == 0 && n == 0))
  {
    AttemptsAreClaims(now, ttl, acts, t);
    RunsKeepInv(now, ttl, acts);
    hide After;
    var s, n := After(Init(now, ttl), acts), ClaimCount(Init(now, ttl), acts, t);
    assert TaskOk(s.db.tasks[t]);
    assert AttemptsNumbered(s.db.tasks, s.db.execs);
    hide Inv, TasksOk;
    forall k ensures 1 <= k <= n <==> HasAttempt(s.db.execs, t, k) {
      if HasAttempt(s.db.execs, t, k) {
        var e :| IsAttempt(s.db.execs, e, t, k);
        assert e in s.db.execs;
      }
    }
  }
}
