/**
 Short runs with recovery that break the promises made about ownership.  In the first no lease
 that matters has expired, and yet two workers hold one task; in the others a worker that lost
 its lease still requeues, or completes, the task of its successor.
 */
module HazardRuns {
  import opened DagValidator
  import opened Wrappers
  import opened TaskStates
  import opened Tables
  import opened Protocol
  import opened Invariants
  import opened Exclusivity
  import opened Stranding

  /** From empty tables at time 0, with leases of 90 seconds, the actions lead to state s. */
  ghost predicate Leads(acts: seq<Action>, s: System) {
    After(Init(0, 90), acts) == s
  }

  lemma Then(acts: seq<Action>, s: System, a: Action, s': System)
    requires Leads(acts, s) && Next(s, a) == s'
    ensures Leads(acts + [a], s')
  {
    assert (acts + [a])[..|acts|] == acts;
  }

  /** Task 10 of mission 1; most runs allow it three attempts. */
  function RowOf(limit: int, status: TaskStatus, attempts: int, worker: Option<Id>): TaskRow {
    TaskRow(1, Implementation, 0, 0, status, attempts, limit, worker)
  }

  function Row(status: TaskStatus, attempts: int, worker: Option<Id>): TaskRow {
    RowOf(3, status, attempts, worker)
  }

  function State(row: TaskRow, execs: map<Id, ExecRow>, leases: map<Id, LeaseRow>, now: int,
                 sessions: map<Id, Session>): System {
    System(Db({1}, map[10 := row], [], execs, leases), now, 90, sessions)
  }

  function TakeOver(worker: Id, lease: Id): Action {
    Claim(1, {CodingSkill}, worker, 10, lease, lease)
  }

  // ------------------------------------------------------------------ first claim

  /** The task is scheduled and claimed by worker 100 under lease 1. */
  function FirstRunOf(limit: int): seq<Action> {
    [SetExecuting(1, true)] + [AddTask(10, 1, Implementation, 0, 0, limit)] + [Schedule(10, Pending, Queued)]
    + [TakeOver(100, 1)]
  }

  function FirstRun(): seq<Action> {
    FirstRunOf(3)
  }

  function ClaimedOf(limit: int, phase: Phase, now: int): System {
    State(RowOf(limit, Running, 1, Some(100)), map[1 := ExecRow(10, 1, ExecRunning)],
          map[1 := LeaseRow(100, 10, 1, 0, 90, 0, 0)], now, map[1 := Session(phase, false)])
  }

  function Claimed(phase: Phase, now: int): System {
    ClaimedOf(3, phase, now)
  }

  function Started(): System {
    System(Db({1}, map[], [], map[], map[]), 0, 90, map[])
  }

  function Waiting(limit: int, status: TaskStatus): System {
    State(RowOf(limit, status, 0, None), map[], map[], 0, map[])
  }

  lemma ScheduleFirst(limit: int)
    ensures Next(Waiting(limit, Pending), Schedule(10, Pending, Queued)) == Waiting(limit, Queued)
  {
    assert ScheduleRows(Waiting(limit, Pending).db, 10, Pending, Queued).tasks == Waiting(limit, Queued).db.tasks;
  }

  lemma ClaimFirst(limit: int)
    ensures Next(Waiting(limit, Queued), TakeOver(100, 1)) == ClaimedOf(limit, Executing, 0)
  {
  }

  lemma {:induction false} FirstRunLeads(limit: int)
    ensures Leads(FirstRunOf(limit), ClaimedOf(limit, Executing, 0))
  {
    ScheduleFirst(limit);
    ClaimFirst(limit);
    assert Next(Init(0, 90), SetExecuting(1, true)) == Started();
    assert Next(Started(), AddTask(10, 1, Implementation, 0, 0, limit)) == Waiting(limit, Pending);
    assert Leads([], Init(0, 90));
    hide After, Next, Waiting, ClaimedOf;
    Then([], Init(0, 90), SetExecuting(1, true), Started());
    assert [] + [SetExecuting(1, true)] == [SetExecuting(1, true)];
    Then([SetExecuting(1, true)], Started(), AddTask(10, 1, Implementation, 0, 0, limit), Waiting(limit, Pending));
    Then([SetExecuting(1, true)] + [AddTask(10, 1, Implementation, 0, 0, limit)], Waiting(limit, Pending),
         Schedule(10, Pending, Queued), Waiting(limit, Queued));
    Then([SetExecuting(1, true)] + [AddTask(10, 1, Implementation, 0, 0, limit)] + [Schedule(10, Pending, Queued)],
         Waiting(limit, Queued), TakeOver(100, 1), ClaimedOf(limit, Executing, 0));
  }

  /** A task that allows no attempt at all is scheduled and claimed like any other. */
  lemma {:induction false} ClaimedBeyondLimit(limit: int)
    requires limit <= 0
    ensures var s := After(Init(0, 90), FirstRunOf(limit));
            && 10 in s.db.tasks && s.db.tasks[10].maxAttempts == limit && s.db.tasks[10].attemptCount == 1
            && s.db.tasks[10].status == Running && Live(s.db, s.now, 1)
  {
    FirstRunLeads(limit);
    hide After;
    var s := ClaimedOf(limit, Executing, 0);
    assert 10 in s.db.tasks && Live(s.db, s.now, 1);
  }

  // ---------------------------------------------------- recovery of an old lease

  /** The first attempt has failed in the ordinary way. */
  function Retrying(): System {
    State(Row(Queued, 1, Some(100)), map[1 := ExecRow(10, 1, ExecFailed)],
          map[1 := LeaseRow(100, 10, 1, 0, 0, 0, 0)], 0, map[])
  }

  /** Worker 101 has taken the second attempt. */
  function Retried(now: int, status: TaskStatus): System {
    State(Row(status, 2, Some(101)), map[1 := ExecRow(10, 1, ExecFailed), 2 := ExecRow(10, 2, ExecRunning)],
          map[1 := LeaseRow(100, 10, 1, 0, 0, 0, 0), 2 := LeaseRow(101, 10, 2, 0, 90, 0, 0)],
          now, map[2 := Session(Executing, false)])
  }

  lemma FailFirst()
    ensures Next(Claimed(Executing, 0), Raise(1)) == Claimed(Failing, 0)
    ensures Next(Claimed(Failing, 0), Fail(1)) == Retrying()
  {
    assert Next(Claimed(Failing, 0), Fail(1)).sessions == map[];
  }

  lemma ClaimRetry()
    ensures Next(Retrying(), TakeOver(101, 2)) == Retried(0, Running)
  {
  }

  lemma LetTimePass()
    ensures Next(Retried(0, Running), Tick(1)) == Retried(1, Running)
  {
  }

  lemma RecoverSuperseded()
    ensures Next(Retried(1, Running), Recover(1, {})) == Retried(1, Queued)
  {
    var s := Retried(1, Running);
    assert RecoverRows(s.db, 1, 1, {}).execs == s.db.execs;
  }

  /** The retried task's old lease is still stored, expired; recovery takes it for the current one. */
  function SupersededRun(): seq<Action> {
    FirstRun() + [Raise(1)] + [Fail(1)] + [TakeOver(101, 2)] + [Tick(1)] + [Recover(1, {})] + [TakeOver(102, 3)]
  }

  lemma {:induction false} SupersededRunLeads()
    ensures Leads(SupersededRun(), Next(Retried(1, Queued), TakeOver(102, 3)))
  {
    FirstRunLeads(3);
    FailFirst();
    ClaimRetry();
    LetTimePass();
    RecoverSuperseded();
    hide After, Next, Retried, ClaimedOf, Retrying, FirstRunOf, TakeOver;
    var r := FirstRun();
    Then(r, Claimed(Executing, 0), Raise(1), Claimed(Failing, 0));
    Then(r + [Raise(1)], Claimed(Failing, 0), Fail(1), Retrying());
    Then(r + [Raise(1)] + [Fail(1)], Retrying(), TakeOver(101, 2), Retried(0, Running));
    r := r + [Raise(1)] + [Fail(1)] + [TakeOver(101, 2)];
    Then(r, Retried(0, Running), Tick(1), Retried(1, Running));
    Then(r + [Tick(1)], Retried(1, Running), Recover(1, {}), Retried(1, Queued));
    Then(r + [Tick(1)] + [Recover(1, {})], Retried(1, Queued), TakeOver(102, 3),
         Next(Retried(1, Queued), TakeOver(102, 3)));
  }

  lemma TwoHolders(s: System, l: Id, k: Id)
    requires l != k && Live(s.db, s.now, l) && Live(s.db, s.now, k) && s.db.leases[l].task == s.db.leases[k].task
    ensures !Exclusive(s)
  {
  }

  /** No worker crashed and no current lease expired, yet two workers hold one task. */
  lemma {:induction false} RecoveryBreaksExclusivity()
    ensures var s := After(Init(0, 90), SupersededRun());
            && !Exclusive(s)
            && Live(s.db, s.now, 2) && Live(s.db, s.now, 3)
            && s.db.leases[2].task == s.db.leases[3].task && s.db.leases[2].worker != s.db.leases[3].worker
  {
    SupersededRunLeads();
    assert Claims(Retried(1, Queued), TakeOver(102, 3));
    hide After, Exclusive;
    TwoHolders(Next(Retried(1, Queued), TakeOver(102, 3)), 2, 3);
  }

  // ---------------------------------------------------- a worker that lost its lease

  function Recovered(phase: Phase): System {
    State(Row(Queued, 1, Some(100)), map[1 := ExecRow(10, 1, ExecFailed)],
          map[1 := LeaseRow(100, 10, 1, 0, 90, 0, 0)], 91, map[1 := Session(phase, false)])
  }

  /** Worker 101 holds the task; the first worker's session is still open. */
  function Replaced(phase: Phase): System {
    State(Row(Running, 2, Some(101)), map[1 := ExecRow(10, 1, ExecFailed), 2 := ExecRow(10, 2, ExecRunning)],
          map[1 := LeaseRow(100, 10, 1, 0, 90, 0, 0), 2 := LeaseRow(101, 10, 2, 91, 181, 91, 0)],
          91, map[1 := Session(phase, false), 2 := Session(Executing, false)])
  }

  lemma LetExpire(phase: Phase)
    ensures Next(Claimed(phase, 0), Tick(91)) == Claimed(phase, 91)
  {
  }

  lemma RecoverExpiredRows()
    ensures RecoverRows(Claimed(Executing, 91).db, 91, 1, {}) == Recovered(Executing).db
  {
    var db := Claimed(Executing, 91).db;
    var stale := {1} + set k | k in {} && StaleFor(db, 91, k);
    assert stale == {1};
    assert FailExecsOf(db, {1}).execs == Recovered(Executing).db.execs;
    hide FailExecsOf;
    assert Recovers(db, 91, 1);
  }

  lemma RecoverExpired(phase: Phase)
    ensures Next(Claimed(phase, 91), Recover(1, {})) == Recovered(phase)
  {
    RecoverExpiredRows();
    hide RecoverRows;
  }

  lemma ReplaceFirst(phase: Phase)
    ensures Next(Recovered(phase), TakeOver(101, 2)) == Replaced(phase)
  {
  }

  lemma RaiseFirst(phase: Phase)
    ensures Next(Replaced(phase), Raise(1)) == Replaced(Failing)
  {
  }

  /** Lease 1 expires and is recovered, and worker 101 takes over. */
  function Replacement(): seq<Action> {
    [Tick(91)] + [Recover(1, {})] + [TakeOver(101, 2)]
  }

  lemma {:induction false} ReplacementLeads(acts: seq<Action>, phase: Phase)
    requires Leads(acts, Claimed(phase, 0))
    ensures Leads(acts + Replacement(), Replaced(phase))
  {
    LetExpire(phase);
    RecoverExpired(phase);
    ReplaceFirst(phase);
    hide Leads, Next, Replaced, ClaimedOf, Recovered, TakeOver;
    Then(acts, Claimed(phase, 0), Tick(91), Claimed(phase, 91));
    Then(acts + [Tick(91)], Claimed(phase, 91), Recover(1, {}), Recovered(phase));
    Then(acts + [Tick(91)] + [Recover(1, {})], Recovered(phase), TakeOver(101, 2), Replaced(phase));
    assert acts + [Tick(91)] + [Recover(1, {})] + [TakeOver(101, 2)] == acts + Replacement();
  }

  /** ... and then the first worker's agent raises. */
  function ZombieRun(): seq<Action> {
    FirstRun() + Replacement() + [Raise(1)] + [Fail(1)]
  }

  lemma {:induction false} ZombieRunLeads()
    ensures Leads(ZombieRun(), Next(Replaced(Failing), Fail(1)))
  {
    FirstRunLeads(3);
    ReplacementLeads(FirstRun(), Executing);
    RaiseFirst(Executing);
    hide Leads, Next, Replaced, ClaimedOf, Recovered, FirstRunOf, Replacement;
    var r := FirstRun() + Replacement();
    Then(r, Replaced(Executing), Raise(1), Replaced(Failing));
    Then(r + [Raise(1)], Replaced(Failing), Fail(1), Next(Replaced(Failing), Fail(1)));
  }

  /** _fail_task checks no ownership: the task goes back to the queue under its new holder's live lease. */
  lemma {:induction false} StaleWorkerRequeues()
    ensures var s := After(Init(0, 90), ZombieRun());
            && !Exclusive(s)
            && Live(s.db, s.now, 2) && !Live(s.db, s.now, 1)
            && 10 in s.db.tasks && s.db.tasks[10].status == Queued
  {
    ZombieRunLeads();
    hide After;
    var s := Next(Replaced(Failing), Fail(1));
    assert 10 in s.db.tasks && s.db.tasks[10].status == Queued;
    assert Live(s.db, s.now, 2);
  }

  /** The first worker passes all its ownership checks before its lease expires, and commits afterwards. */
  function LateCommit(): seq<Action> {
    FirstRun() + [RuntimeReturn(1, Untouched)] + [AssertOwnership(1)] + [VerifyReturn(1, true)] + [AssertOwnership(1)]
    + [AssertOwnership(1)] + Replacement() + [Complete(1)]
  }

  lemma ReturnFirst()
    ensures Next(Claimed(Executing, 0), RuntimeReturn(1, Untouched)) == Claimed(RuntimeDone, 0)
  {
  }

  lemma VerifyFirst()
    ensures Next(Claimed(Phase.Verifying, 0), VerifyReturn(1, true)) == Claimed(VerifiedOk, 0)
  {
  }

  lemma PassCheck(from: Phase, to: Phase)
    requires (from, to) in {(RuntimeDone, Phase.Verifying), (VerifiedOk, Completing), (Completing, Committing)}
    ensures Next(Claimed(from, 0), AssertOwnership(1)) == Claimed(to, 0)
  {
    var s := Claimed(from, 0);
    assert Known(s, 1) && Owns(s.db, 0, 100, 1);
  }

  lemma {:induction false} LateCommitLeads()
    ensures Leads(LateCommit(), Next(Replaced(Committing), Complete(1)))
  {
    FirstRunLeads(3);
    ReturnFirst();
    VerifyFirst();
    PassCheck(RuntimeDone, Phase.Verifying);
    PassCheck(VerifiedOk, Completing);
    PassCheck(Completing, Committing);
    hide Leads, Next, Replaced, ClaimedOf, FirstRunOf, Replacement;
    var r := FirstRun();
    Then(r, Claimed(Executing, 0), RuntimeReturn(1, Untouched), Claimed(RuntimeDone, 0));
    r := r + [RuntimeReturn(1, Untouched)];
    Then(r, Claimed(RuntimeDone, 0), AssertOwnership(1), Claimed(Phase.Verifying, 0));
    r := r + [AssertOwnership(1)];
    Then(r, Claimed(Phase.Verifying, 0), VerifyReturn(1, true), Claimed(VerifiedOk, 0));
    r := r + [VerifyReturn(1, true)];
    Then(r, Claimed(VerifiedOk, 0), AssertOwnership(1), Claimed(Completing, 0));
    r := r + [AssertOwnership(1)];
    Then(r, Claimed(Completing, 0), AssertOwnership(1), Claimed(Committing, 0));
    r := r + [AssertOwnership(1)];
    ReplacementLeads(r, Committing);
    Then(r + Replacement(), Replaced(Committing), Complete(1), Next(Replaced(Committing), Complete(1)));
  }

  /**
   The checks and the commit are separate units of work: a worker whose lease has expired and been recovered
   still completes the task that its successor is running under a live lease.
   */
  lemma {:induction false} StaleWorkerCompletes()
    ensures var s := After(Init(0, 90), LateCommit());
            && 1 in s.db.leases && Live(s.db, s.now, 2) && !Live(s.db, s.now, 1)
            && s.db.leases[1].worker != s.db.leases[2].worker
            && 10 in s.db.tasks && s.db.tasks[10].status == Succeeded && s.db.tasks[10].assignedTo == Some(101)
            && 2 in s.db.execs && s.db.execs[2].status == ExecRunning
  {
    LateCommitLeads();
    hide After;
    var s := Next(Replaced(Committing), Complete(1));
    assert 10 in s.db.tasks && s.db.tasks[10].status == Succeeded;
    assert Live(s.db, s.now, 2);
  }

  /** The first worker's agent finishes after its lease was recovered and the task taken over. */
  function LateVerdict(): seq<Action> {
    FirstRun() + Replacement() + [RuntimeReturn(1, RuntimeSucceeded)]
  }

  lemma {:induction false} LateVerdictLeads()
    ensures Leads(LateVerdict(), Next(Replaced(Executing), RuntimeReturn(1, RuntimeSucceeded)))
  {
    FirstRunLeads(3);
    ReplacementLeads(FirstRun(), Executing);
    hide Leads, Next, Replaced, FirstRunOf, Replacement;
    Then(FirstRun() + Replacement(), Replaced(Executing), RuntimeReturn(1, RuntimeSucceeded),
         Next(Replaced(Executing), RuntimeReturn(1, RuntimeSucceeded)));
  }

  /** An agent's own write asks for no lease: it ends the attempt its worker's successor is running. */
  lemma {:induction false} StaleAgentWrites()
    ensures var s := After(Init(0, 90), LateVerdict());
            && 1 in s.db.leases && Live(s.db, s.now, 2) && !Live(s.db, s.now, 1)
            && s.db.leases[1].worker != s.db.leases[2].worker
            && 10 in s.db.tasks && s.db.tasks[10].status == Succeeded && s.db.tasks[10].assignedTo == Some(101)
            && 2 in s.db.execs && s.db.execs[2].status == ExecRunning
  {
    LateVerdictLeads();
    hide After;
    var s := Next(Replaced(Executing), RuntimeReturn(1, RuntimeSucceeded));
    assert 10 in s.db.tasks && s.db.tasks[10].status == Succeeded;
    assert Live(s.db, s.now, 2);
  }

  // ---------------------------------------------------------- a success marked failed

  /** The agent has written its success; worker 100 goes on under its live lease. */
  function Wrote(phase: Phase): System {
    State(Row(Succeeded, 1, Some(100)), map[1 := ExecRow(10, 1, ExecSucceeded)],
          map[1 := LeaseRow(100, 10, 1, 0, 90, 0, 0)], 0, map[1 := Session(phase, true)])
  }

  /** ... passes verification and every ownership check, and completes. */
  function VerifiedRun(): seq<Action> {
    FirstRun() + [RuntimeReturn(1, RuntimeSucceeded)] + [AssertOwnership(1)] + [VerifyReturn(1, true)]
    + [AssertOwnership(1)] + [AssertOwnership(1)] + [Complete(1)] + [Fail(1)]
  }

  lemma WriteFirst()
    ensures Next(Claimed(Executing, 0), RuntimeReturn(1, RuntimeSucceeded)) == Wrote(RuntimeDone)
  {
  }

  lemma CheckWrote(from: Phase, to: Phase)
    requires (from, to) in {(RuntimeDone, Phase.Verifying), (VerifiedOk, Completing), (Completing, Committing)}
    ensures Next(Wrote(from), AssertOwnership(1)) == Wrote(to)
  {
    var s := Wrote(from);
    assert Known(s, 1) && Owns(s.db, 0, 100, 1);
  }

  lemma VerifyWrote()
    ensures Next(Wrote(Phase.Verifying), VerifyReturn(1, true)) == Wrote(VerifiedOk)
    ensures Next(Wrote(Committing), Complete(1)) == Wrote(Failing)
  {
  }

  lemma {:induction false} VerifiedRunLeads()
    ensures Leads(VerifiedRun(), Next(Wrote(Failing), Fail(1)))
  {
    FirstRunLeads(3);
    WriteFirst();
    CheckWrote(RuntimeDone, Phase.Verifying);
    CheckWrote(VerifiedOk, Completing);
    CheckWrote(Completing, Committing);
    VerifyWrote();
    hide Leads, Next, Wrote, ClaimedOf, FirstRunOf;
    var r := FirstRun();
    Then(r, Claimed(Executing, 0), RuntimeReturn(1, RuntimeSucceeded), Wrote(RuntimeDone));
    r := r + [RuntimeReturn(1, RuntimeSucceeded)];
    Then(r, Wrote(RuntimeDone), AssertOwnership(1), Wrote(Phase.Verifying));
    r := r + [AssertOwnership(1)];
    Then(r, Wrote(Phase.Verifying), VerifyReturn(1, true), Wrote(VerifiedOk));
    r := r + [VerifyReturn(1, true)];
    Then(r, Wrote(VerifiedOk), AssertOwnership(1), Wrote(Completing));
    r := r + [AssertOwnership(1)];
    Then(r, Wrote(Completing), AssertOwnership(1), Wrote(Committing));
    r := r + [AssertOwnership(1)];
    Then(r, Wrote(Committing), Complete(1), Wrote(Failing));
    Then(r + [Complete(1)], Wrote(Failing), Fail(1), Next(Wrote(Failing), Fail(1)));
  }

  /** A success that was verified, by a worker that never lost its lease, ends as a failed execution. */
  lemma {:induction false} VerifiedSuccessIsMarkedFailed()
    ensures var s := After(Init(0, 90), VerifiedRun());
            && 10 in s.db.tasks && s.db.tasks[10].status == Succeeded
            && 1 in s.db.execs && s.db.execs[1].status == ExecFailed && s.sessions == map[]
  {
    VerifiedRunLeads();
    hide After;
    var s := Next(Wrote(Failing), Fail(1));
    assert 10 in s.db.tasks && s.db.tasks[10].status == Succeeded;
    assert 1 in s.db.execs && s.db.execs[1].status == ExecFailed;
    assert s.sessions == map[];
  }

  // ------------------------------------------------------------------ a worker gone

  /** The last attempt: the lease runs out while the agent works, and the worker stops at its ownership check. */
  function LastAttemptRun(): seq<Action> {
    FirstRunOf(1) + [RuntimeReturn(1, Untouched)] + [Tick(91)] + [AssertOwnership(1)]
  }

  function Gone(): System {
    ClaimedOf(1, RuntimeDone, 91).(sessions := map[])
  }

  lemma LoseLastAttempt()
    ensures Next(ClaimedOf(1, Executing, 0), RuntimeReturn(1, Untouched)) == ClaimedOf(1, RuntimeDone, 0)
    ensures Next(ClaimedOf(1, RuntimeDone, 0), Tick(91)) == ClaimedOf(1, RuntimeDone, 91)
  {
  }

  lemma StopAtCheck()
    ensures Next(ClaimedOf(1, RuntimeDone, 91), AssertOwnership(1)) == Gone()
  {
    assert ClaimedOf(1, RuntimeDone, 91).sessions - {1} == map[];
  }

  lemma {:induction false} LastAttemptLeads()
    ensures Leads(LastAttemptRun(), Gone())
  {
    FirstRunLeads(1);
    LoseLastAttempt();
    StopAtCheck();
    hide Leads, Next, Gone, ClaimedOf, FirstRunOf;
    var r := FirstRunOf(1);
    Then(r, ClaimedOf(1, Executing, 0), RuntimeReturn(1, Untouched), ClaimedOf(1, RuntimeDone, 0));
    Then(r + [RuntimeReturn(1, Untouched)], ClaimedOf(1, RuntimeDone, 0), Tick(91), ClaimedOf(1, RuntimeDone, 91));
    Then(r + [RuntimeReturn(1, Untouched)] + [Tick(91)], ClaimedOf(1, RuntimeDone, 91), AssertOwnership(1), Gone());
  }

  /** The lease has expired, no continuation recovers the task, and it stays RUNNING for ever. */
  lemma {:induction false} ExpiredIsNeverRecovered(more: seq<Action>)
    ensures var s := After(Init(0, 90), LastAttemptRun());
            && 1 in s.db.leases && !Live(s.db, s.now, 1) && s.sessions == map[]
            && 10 in After(s, more).db.tasks && After(s, more).db.tasks[10].status == Running
  {
    LastAttemptLeads();
    RunsKeepInv(0, 90, LastAttemptRun());
    hide After, Inv;
    var s := Gone();
    assert 1 in s.db.leases && !Live(s.db, s.now, 1);
    assert Abandoned(s, 10, {}) && OutOfAttempts(s, 10);
    StrandedForever(s, more, 10, {});
  }

  /** The same for a worker that crashes in the middle of its last attempt, with its session open for ever. */
  lemma {:induction false} CrashIsNeverRecovered(more: seq<Action>)
    requires AllSilent(more, {1})
    ensures var s := After(Init(0, 90), FirstRunOf(1));
            && At(s, 1, Executing)
            && 10 in After(s, more).db.tasks && After(s, more).db.tasks[10].status == Running
  {
    FirstRunLeads(1);
    RunsKeepInv(0, 90, FirstRunOf(1));
    hide After, Inv;
    var s := ClaimedOf(1, Executing, 0);
    assert Abandoned(s, 10, {1}) && OutOfAttempts(s, 10);
    StrandedForever(s, more, 10, {1});
  }
}
