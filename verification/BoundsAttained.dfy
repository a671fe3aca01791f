/** The bounds on status changes are sharp: for every attempt limit there are runs that reach them. */
module BoundsAttained {
  import opened DagValidator
  import opened Wrappers
  import opened TaskStates
  import opened Tables
  import opened Protocol
  import opened Invariants
  import opened Lifecycle

  /** The actions lead to s, and task 10 has changed status n times on the way. */
  ghost predicate Leads(acts: seq<Action>, s: System, n: nat) {
    After(Init(0, 90), acts) == s && StatusChanges(Init(0, 90), acts, 10) == n
  }

  lemma Then(acts: seq<Action>, s: System, n: nat, a: Action)
    requires Leads(acts, s, n)
    ensures Leads(acts + [a], Next(s, a), n + if Changed(s, Next(s, a), 10) then 1 else 0)
  {
    assert (acts + [a])[..|acts|] == acts;
  }

  /** Task 10 of mission 1 after `count` claims, the k-th under lease k; every lease but the last has run out. */
  ghost predicate Shape(s: System, limit: int, status: TaskStatus, count: nat, sessions: map<Id, Session>) {
    && s.db.tasks.Keys == {10} && s.db.deps == [] && 1 in s.db.executing && s.ttl == 90 && s.sessions == sessions
    && s.db.tasks[10].mission == 1 && s.db.tasks[10].taskType == Implementation
    && s.db.tasks[10].maxAttempts == limit && s.db.tasks[10].status == status && s.db.tasks[10].attemptCount == count
    && (forall l :: l in s.db.leases <==> 1 <= l <= count)
    && (forall e :: e in s.db.execs <==> 1 <= e <= count)
    && (forall l | l in s.db.leases :: s.db.leases[l].task == 10 && s.db.leases[l].exec == l)
  }

  function OneSession(phase: Phase, wrote: bool, k: nat): map<Id, Session> {
    map[k := Session(phase, wrote)]
  }

  function ClaimAs(k: nat): Action {
    Claim(1, {CodingSkill}, 100, 10, k, k)
  }

  // ---------------------------------------------------------------- the single steps

  lemma StepClaim(s: System, limit: int, k: nat)
    requires Shape(s, limit, Queued, k, map[])
    ensures var s' := Next(s, ClaimAs(k + 1));
            && Shape(s', limit, Running, k + 1, OneSession(Executing, false, k + 1)) && Changed(s, s', 10)
            && s'.db.leases[k + 1].expiresAt <= s'.now + 90
  {
    assert Claims(s, ClaimAs(k + 1)) by {
      assert Eligible(s.db, 1, {CodingSkill}, 10);
    }
    hide BestClaim;
  }

  lemma StepWait(s: System, limit: int, k: nat)
    requires k >= 1 && Shape(s, limit, Running, k, OneSession(Executing, false, k))
    requires s.db.leases[k].expiresAt <= s.now + 90
    ensures var s' := Next(s, Tick(91));
            && Shape(s', limit, Running, k, OneSession(Executing, false, k)) && !Changed(s, s', 10)
            && s'.db.leases[k].expiresAt < s'.now
  {
  }

  lemma StepRecover(s: System, limit: int, k: nat)
    requires 1 <= k < limit && Shape(s, limit, Running, k, OneSession(Executing, false, k))
    requires s.db.leases[k].expiresAt < s.now
    ensures var s' := Next(s, Recover(k, {}));
            Shape(s', limit, Queued, k, OneSession(Executing, false, k)) && Changed(s, s', 10)
  {
    assert Recovers(s.db, s.now, k);
  }

  /** The agent writes FAILED, whether the task is still RUNNING or has been recovered. */
  lemma StepVerdict(s: System, limit: int, status: TaskStatus, k: nat)
    requires k >= 1 && status in {Running, Queued} && Shape(s, limit, status, k, OneSession(Executing, false, k))
    ensures var s' := Next(s, RuntimeReturn(k, RuntimeFailed));
            Shape(s', limit, Failed, k, OneSession(RuntimeDone, true, k)) && Changed(s, s', 10)
  {
    assert Known(s, k) && At(s, k, Executing);
  }

  lemma StepRaise(s: System, limit: int, k: nat)
    requires k >= 1 && Shape(s, limit, Failed, k, OneSession(RuntimeDone, true, k))
    ensures var s' := Next(s, Raise(k));
            Shape(s', limit, Failed, k, OneSession(Failing, true, k)) && !Changed(s, s', 10)
  {
  }

  lemma StepFail(s: System, limit: int, k: nat)
    requires 1 <= k < limit && Shape(s, limit, Failed, k, OneSession(Failing, true, k))
    ensures var s' := Next(s, Fail(k));
            Shape(s', limit, Queued, k, map[]) && Changed(s, s', 10)
  {
    assert Known(s, k) && At(s, k, Failing);
  }

  // ------------------------------------------------------------------ whole attempts

  /** The task is queued after k claims, of which each cost the given number of changes. */
  ghost predicate Round(acts: seq<Action>, s: System, limit: int, k: nat, n: nat) {
    Leads(acts, s, n) && Shape(s, limit, Queued, k, map[])
  }

  /** From its agent's verdict to the requeue by its worker. */
  lemma {:induction false} Requeue(acts: seq<Action>, s: System, limit: int, status: TaskStatus, k: nat, n: nat)
    returns (more: seq<Action>, s': System)
    requires 1 <= k < limit && status in {Running, Queued}
    requires Shape(s, limit, status, k, OneSession(Executing, false, k)) && Leads(acts, s, n)
    ensures more == acts + [RuntimeReturn(k, RuntimeFailed), Raise(k), Fail(k)] && Round(more, s', limit, k, n + 2)
  {
    hide Leads, Next, Shape, Changed;
    StepVerdict(s, limit, status, k);
    Then(acts, s, n, RuntimeReturn(k, RuntimeFailed));
    var s1 := Next(s, RuntimeReturn(k, RuntimeFailed));
    StepRaise(s1, limit, k);
    Then(acts + [RuntimeReturn(k, RuntimeFailed)], s1, n + 1, Raise(k));
    var s2 := Next(s1, Raise(k));
    StepFail(s2, limit, k);
    Then(acts + [RuntimeReturn(k, RuntimeFailed)] + [Raise(k)], s2, n + 1, Fail(k));
    s' := Next(s2, Fail(k));
    more := acts + [RuntimeReturn(k, RuntimeFailed)] + [Raise(k)] + [Fail(k)];
    assert more == acts + [RuntimeReturn(k, RuntimeFailed), Raise(k), Fail(k)];
  }

  /** One attempt that ends in the queue again: four changes with a recovery in it, three without. */
  lemma {:induction false} Attempt(acts: seq<Action>, s: System, limit: int, k: nat, n: nat, recovering: bool)
    returns (more: seq<Action>, s': System)
    requires Round(acts, s, limit, k, n) && k + 1 < limit
    ensures Round(more, s', limit, k + 1, n + if recovering then 4 else 3)
    ensures !recovering && WithoutRecovery(acts) ==> WithoutRecovery(more)
  {
    hide Leads, Next, Shape, Changed;
    StepClaim(s, limit, k);
    Then(acts, s, n, ClaimAs(k + 1));
    var s1 := Next(s, ClaimAs(k + 1));
    var claimed := acts + [ClaimAs(k + 1)];
    if recovering {
      LeaseThere(s1, limit, k + 1);
      StepWait(s1, limit, k + 1);
      Then(claimed, s1, n + 1, Tick(91));
      var s2 := Next(s1, Tick(91));
      LeaseThere(s2, limit, k + 1);
      StepRecover(s2, limit, k + 1);
      Then(claimed + [Tick(91)], s2, n + 1, Recover(k + 1, {}));
      var s3 := Next(s2, Recover(k + 1, {}));
      more, s' := Requeue(claimed + [Tick(91)] + [Recover(k + 1, {})], s3, limit, Queued, k + 1, n + 2);
    } else {
      more, s' := Requeue(claimed, s1, limit, Running, k + 1, n + 1);
    }
  }

  lemma LeaseThere(s: System, limit: int, k: nat)
    requires k >= 1 && Shape(s, limit, Running, k, OneSession(Executing, false, k))
    ensures k in s.db.leases
  {
  }

  function Opening(limit: int): seq<Action> {
    [SetExecuting(1, true)] + [AddTask(10, 1, Implementation, 0, 0, limit)] + [Schedule(10, Pending, Blocked)]
    + [Schedule(10, Blocked, Queued)]
  }

  /** Task 10 as it is added, blocked or queued. */
  function Added(limit: int, status: TaskStatus): System {
    System(Db({1}, map[10 := TaskRow(1, Implementation, 0, 0, status, 0, limit, None)], [], map[], map[]), 0, 90, map[])
  }

  lemma StepReschedule(limit: int, from: TaskStatus, to: TaskStatus)
    requires MayReschedule(from, to)
    ensures Next(Added(limit, from), Schedule(10, from, to)) == Added(limit, to)
    ensures Changed(Added(limit, from), Added(limit, to), 10)
  {
    assert ScheduleRows(Added(limit, from).db, 10, from, to).tasks == Added(limit, to).db.tasks;
  }

  lemma StepAdd(limit: int)
    ensures Next(Next(Init(0, 90), SetExecuting(1, true)), AddTask(10, 1, Implementation, 0, 0, limit))
            == Added(limit, Pending)
  {
  }

  lemma OpensQuietly(limit: int)
    ensures Leads([], Init(0, 90), 0) && Shape(Added(limit, Queued), limit, Queued, 0, map[])
    ensures var s1 := Next(Init(0, 90), SetExecuting(1, true));
            !Changed(Init(0, 90), s1, 10) && !Changed(s1, Added(limit, Pending), 10)
  {
  }

  /** The task is added, blocked and queued. */
  lemma {:induction false} Opens(limit: int) returns (s: System)
    ensures Round(Opening(limit), s, limit, 0, 2) && WithoutRecovery(Opening(limit))
  {
    var s0 := Init(0, 90);
    var s1 := Next(s0, SetExecuting(1, true));
    OpensQuietly(limit);
    hide Leads, Next, Changed, Shape, Added;
    StepAdd(limit);
    StepReschedule(limit, Pending, Blocked);
    StepReschedule(limit, Blocked, Queued);
    s := Added(limit, Queued);
    Then([], s0, 0, SetExecuting(1, true));
    assert [] + [SetExecuting(1, true)] == [SetExecuting(1, true)];
    var acts := [SetExecuting(1, true)];
    Then(acts, s1, 0, AddTask(10, 1, Implementation, 0, 0, limit));
    acts := acts + [AddTask(10, 1, Implementation, 0, 0, limit)];
    Then(acts, Added(limit, Pending), 0, Schedule(10, Pending, Blocked));
    Then(acts + [Schedule(10, Pending, Blocked)], Added(limit, Blocked), 1, Schedule(10, Blocked, Queued));
  }

  lemma {:induction false} Attempts(limit: int, k: nat, recovering: bool) returns (acts: seq<Action>, s: System)
    requires k == 0 || k < limit
    ensures Round(acts, s, limit, k, 2 + k * if recovering then 4 else 3)
    ensures !recovering ==> WithoutRecovery(acts)
  {
    if k == 0 {
      s := Opens(limit);
      acts := Opening(limit);
    } else {
      hide Round, WithoutRecovery;
      acts, s := Attempts(limit, k - 1, recovering);
      acts, s := Attempt(acts, s, limit, k - 1, 2 + (k - 1) * if recovering then 4 else 3, recovering);
    }
  }

  /** The last attempt is claimed, and its agent fails it for good. */
  lemma {:induction false} LastAttempt(acts: seq<Action>, s: System, limit: int, k: nat, n: nat)
    returns (more: seq<Action>, s': System)
    requires Round(acts, s, limit, k, n)
    ensures more == acts + [ClaimAs(k + 1)] + [RuntimeReturn(k + 1, RuntimeFailed)]
    ensures Leads(more, s', n + 2) && Shape(s', limit, Failed, k + 1, OneSession(RuntimeDone, true, k + 1))
  {
    hide Leads, Next, Shape, Changed;
    StepClaim(s, limit, k);
    Then(acts, s, n, ClaimAs(k + 1));
    var s1 := Next(s, ClaimAs(k + 1));
    StepVerdict(s1, limit, Running, k + 1);
    Then(acts + [ClaimAs(k + 1)], s1, n + 1, RuntimeReturn(k + 1, RuntimeFailed));
    s' := Next(s1, RuntimeReturn(k + 1, RuntimeFailed));
    more := acts + [ClaimAs(k + 1)] + [RuntimeReturn(k + 1, RuntimeFailed)];
  }

  /** For every limit some run reaches 4n changes, and some run without recovery 3n + 1. */
  lemma {:induction false} BoundIsReached(limit: int, recovering: bool) returns (acts: seq<Action>)
    ensures var s := After(Init(0, 90), acts);
            && 10 in s.db.tasks && s.db.tasks[10].maxAttempts == limit
            && StatusChanges(Init(0, 90), acts, 10) ==
               if recovering then 4 * Limit(s.db.tasks[10]) else 3 * Limit(s.db.tasks[10]) + 1
    ensures !recovering ==> WithoutRecovery(acts)
  {
    var k := if limit < 1 then 0 else limit - 1;
    var s: System;
    acts, s := Attempts(limit, k, recovering);
    assert !recovering ==> WithoutRecovery(acts);
    acts, s := LastAttempt(acts, s, limit, k, 2 + k * if recovering then 4 else 3);
    hide After;
  }
}
