/**
 When workers are gone, crashed in the middle of their session or not.  A lease that expires is said to lead to
 recovery; it does exactly while the task has attempts left.  After the last attempt a task whose workers are
 gone stays RUNNING in every continuation.
 */
module Stranding {
  import opened DagValidator
  import opened TaskStates
  import opened Tables
  import opened Protocol
  import opened Invariants
  import opened Exclusivity
  import opened Lifecycle
  import opened LeaseTiming

  predicate WorksOn(s: System, l: Id, t: Id) {
    l in s.sessions && l in s.db.leases && s.db.leases[l].task == t
  }

  /** The task is RUNNING, and whoever is inside execute_claimed for it is dead. */
  ghost predicate Abandoned(s: System, t: Id, dead: set<Id>) {
    t in s.db.tasks && s.db.tasks[t].status == Running && forall l | WorksOn(s, l, t) :: l in dead
  }

  /** The sessions of these leases do nothing any more: no heartbeat, no write, not even an ownership check. */
  predicate Silent(a: Action, dead: set<Id>) {
    ByHolder(a) ==> a.lease !in dead
  }

  ghost predicate AllSilent(acts: seq<Action>, dead: set<Id>) {
    forall i | 0 <= i < |acts| :: Silent(acts[i], dead)
  }

  predicate OutOfAttempts(s: System, t: Id) {
    t in s.db.tasks && s.db.tasks[t].attemptCount >= s.db.tasks[t].maxAttempts
  }

  // -------------------------------------------------------------------- one step

  lemma {:induction false} RuntimeLeavesTask(s: System, l: Id, o: Outcome, t: Id)
    requires t in s.db.tasks && !WorksOn(s, l, t)
    ensures t in RuntimeReturnStep(s, l, o).db.tasks && RuntimeReturnStep(s, l, o).db.tasks[t] == s.db.tasks[t]
  {
  }

  lemma {:induction false} CompleteLeavesTask(s: System, l: Id, t: Id)
    requires t in s.db.tasks && !WorksOn(s, l, t)
    ensures t in CompleteStep(s, l).db.tasks && CompleteStep(s, l).db.tasks[t] == s.db.tasks[t]
  {
  }

  lemma {:induction false} FailLeavesTask(s: System, l: Id, t: Id)
    requires t in s.db.tasks && !WorksOn(s, l, t)
    ensures t in FailStep(s, l).db.tasks && FailStep(s, l).db.tasks[t] == s.db.tasks[t]
  {
  }

  lemma {:induction false} OthersLeaveTask(s: System, a: Action, t: Id)
    requires !a.RuntimeReturn? && !a.Complete? && !a.Fail?
    requires t in s.db.tasks && s.db.tasks[t].status == Running && OutOfAttempts(s, t)
    ensures t in Next(s, a).db.tasks && Next(s, a).db.tasks[t] == s.db.tasks[t]
  {
  }

  lemma {:induction false} RowStays(s: System, a: Action, t: Id, dead: set<Id>)
    requires Abandoned(s, t, dead) && OutOfAttempts(s, t) && Silent(a, dead)
    ensures t in Next(s, a).db.tasks && Next(s, a).db.tasks[t] == s.db.tasks[t]
  {
    match a
    case RuntimeReturn(l, o) => assert !WorksOn(s, l, t); hide RuntimeReturnStep; RuntimeLeavesTask(s, l, o, t);
    case Complete(l) => assert !WorksOn(s, l, t); hide CompleteStep; CompleteLeavesTask(s, l, t);
    case Fail(l) => assert !WorksOn(s, l, t); hide FailStep; FailLeavesTask(s, l, t);
    case _ => hide Next; OthersLeaveTask(s, a, t);
  }

  /** Only a claim of a QUEUED task opens a session. */
  lemma {:induction false} NobodyJoins(s: System, a: Action, t: Id, l: Id)
    requires Inv(s) && t in s.db.tasks && s.db.tasks[t].status == Running && OutOfAttempts(s, t)
    requires !WorksOn(s, l, t)
    ensures !WorksOn(Next(s, a), l, t)
  {
    InvMeansAttempted(s);
    if !Inserts(a) {
      assert s.sessions.Keys <= s.db.leases.Keys;
      QuietSteps(s, a);
      hide Next, Inv, SessionsAttempted;
    } else {
      assert s.sessions.Keys <= s.db.leases.Keys;
      hide Inv, SessionsAttempted, MayAdd;
    }
  }

  lemma {:induction false} StrandedStep(s: System, a: Action, t: Id, dead: set<Id>)
    requires Inv(s) && Abandoned(s, t, dead) && OutOfAttempts(s, t) && Silent(a, dead)
    ensures Abandoned(Next(s, a), t, dead) && OutOfAttempts(Next(s, a), t)
  {
    RowStays(s, a, t, dead);
    forall l | WorksOn(Next(s, a), l, t) ensures l in dead {
      if !WorksOn(s, l, t) {
        NobodyJoins(s, a, t, l);
      }
    }
    hide Next, Inv;
  }

  // ------------------------------------------------------------------ whole runs

  lemma {:induction false} InvAfter(s: System, acts: seq<Action>)
    requires Inv(s)
    ensures Inv(After(s, acts))
  {
    hide Inv, Next;
    if acts != [] {
      InvAfter(s, acts[..|acts| - 1]);
      NextKeepsInv(After(s, acts[..|acts| - 1]), acts[|acts| - 1]);
    }
  }

  lemma {:induction false} StrandedForever(s: System, more: seq<Action>, t: Id, dead: set<Id>)
    requires Inv(s) && Abandoned(s, t, dead) && OutOfAttempts(s, t) && AllSilent(more, dead)
    ensures Abandoned(After(s, more), t, dead) && OutOfAttempts(After(s, more), t)
  {
    hide Inv, Next, Abandoned, OutOfAttempts;
    if more != [] {
      StrandedForever(s, more[..|more| - 1], t, dead);
      InvAfter(s, more[..|more| - 1]);
      StrandedStep(After(s, more[..|more| - 1]), more[|more| - 1], t, dead);
    }
  }

  /** Some lease for the task is stored. */
  ghost predicate Leased(s: System, t: Id) {
    exists l :: l in s.db.leases && s.db.leases[l].task == t
  }

  lemma {:induction false} LeasesStayFor(s: System, a: Action, t: Id)
    requires Inv(s) && Leased(s, t)
    ensures Leased(Next(s, a), t)
  {
    var l :| l in s.db.leases && s.db.leases[l].task == t;
    hide Inv, Next, LeaseStep;
    LeaseSteps(s, a, l);
    LeaseKeepsTask(s, a, Next(s, a), l);
  }

  lemma LeaseKeepsTask(s: System, a: Action, s': System, l: Id)
    requires l in s.db.leases && LeaseStep(s, a, s', l)
    ensures l in s'.db.leases && s'.db.leases[l].task == s.db.leases[l].task
  {
  }

  /** Every attempt leaves a lease behind. */
  lemma {:induction false} AttemptedIsLeased(now: int, ttl: int, acts: seq<Action>, t: Id)
    requires var s := After(Init(now, ttl), acts); t in s.db.tasks && s.db.tasks[t].attemptCount >= 1
    ensures Leased(After(Init(now, ttl), acts), t)
  {
    var front := acts[..|acts| - 1];
    var s, a := After(Init(now, ttl), front), acts[|acts| - 1];
    RunsKeepInv(now, ttl, front);
    InvMeansAttempted(s);
    hide Inv, Next, SessionsAttempted, Leased, Claims;
    if t in s.db.tasks {
      ClaimBumps(s, a, t);
      if Claims(s, a) && a.task == t {
        ClaimLeases(s, a);
      } else {
        AttemptedIsLeased(now, ttl, front, t);
        LeasesStayFor(s, a, t);
      }
    } else {
      FreshTask(s, a, t);
    }
  }

  lemma ClaimLeases(s: System, a: Action)
    requires Claims(s, a)
    ensures Leased(Next(s, a), a.task)
  {
    assert a.lease in Next(s, a).db.leases && Next(s, a).db.leases[a.lease].task == a.task;
  }

  /** Wait until the lease has expired, then recover. */
  function WaitAndRecover(s: System, l: Id): seq<Action>
    requires l in s.db.leases
  {
    var wait := s.db.leases[l].expiresAt - s.now + 1;
    [Tick(if wait > 0 then wait else 0), Recover(l, {})]
  }

  lemma {:induction false} RecoveryHelps(s: System, l: Id)
    requires l in s.db.leases && s.db.leases[l].task in s.db.tasks
    requires s.db.tasks[s.db.leases[l].task].status == Running && !OutOfAttempts(s, s.db.leases[l].task)
    ensures var s' := After(s, WaitAndRecover(s, l));
            s.db.leases[l].task in s'.db.tasks && s'.db.tasks[s.db.leases[l].task].status == Queued
  {
    var more := WaitAndRecover(s, l);
    assert more[..1] == [more[0]] && more[..1][..0] == [];
    var waited := Next(s, more[0]);
    assert After(s, more[..1]) == waited;
    assert Recovers(waited.db, waited.now, l);
  }

  /** Some continuation without the dead takes the task out of RUNNING. */
  ghost predicate MovesAgain(s: System, t: Id, dead: set<Id>) {
    exists more :: AllSilent(more, dead)
                   && t in After(s, more).db.tasks && After(s, more).db.tasks[t].status != Running
  }

  /**
   A RUNNING task whose workers are all dead, wherever in their sessions they died, moves again in some
   continuation exactly when it has attempts left.
   */
  lemma {:induction false} MovesAgainIff(now: int, ttl: int, acts: seq<Action>, t: Id, dead: set<Id>)
    requires Abandoned(After(Init(now, ttl), acts), t, dead)
    ensures var s := After(Init(now, ttl), acts);
            MovesAgain(s, t, dead) <==> s.db.tasks[t].attemptCount < s.db.tasks[t].maxAttempts
  {
    var s := After(Init(now, ttl), acts);
    RunsKeepInv(now, ttl, acts);
    if OutOfAttempts(s, t) {
      forall more | AllSilent(more, dead)
        ensures t in After(s, more).db.tasks && After(s, more).db.tasks[t].status == Running
      {
        StrandedForever(s, more, t, dead);
      }
    } else {
      InvMeansTaskOk(s, t);
      AttemptedIsLeased(now, ttl, acts, t);
      hide After, Inv;
      var l :| l in s.db.leases && s.db.leases[l].task == t;
      RecoveryHelps(s, l);
      assert AllSilent(WaitAndRecover(s, l), dead);
      assert After(s, WaitAndRecover(s, l)).db.tasks[t].status != Running;
    }
  }
}
