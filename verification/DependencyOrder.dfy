/**
 Dependency order over whole runs: success is final, and a task is claimed only after each
 task it then depends on was claimed and succeeded.
 */
module DependencyOrder {
  import Graph
  import opened DagValidator
  import opened TaskStates
  import opened Tables
  import opened Protocol
  import opened Invariants
  import opened Lifecycle

  predicate SucceededIn(s: System, t: Id) {
    t in s.db.tasks && s.db.tasks[t].status == Succeeded
  }

  /** The state before the i-th action of the run. */
  ghost function Before(now: int, ttl: int, acts: seq<Action>, i: nat): System
    requires i <= |acts|
  {
    After(Init(now, ttl), acts[..i])
  }

  /** The i-th action claims t. */
  ghost predicate ClaimsAt(now: int, ttl: int, acts: seq<Action>, i: nat, t: Id) {
    i < |acts| && Claims(Before(now, ttl, acts, i), acts[i]) && acts[i].task == t
  }

  /** The i-th action makes t a success. */
  ghost predicate SucceedsAt(now: int, ttl: int, acts: seq<Action>, i: nat, t: Id) {
    i < |acts| && !SucceededIn(Before(now, ttl, acts, i), t) && SucceededIn(Before(now, ttl, acts, i + 1), t)
  }

  lemma {:induction false} NextBefore(now: int, ttl: int, acts: seq<Action>, i: nat)
    requires i < |acts|
    ensures Before(now, ttl, acts, i + 1) == Next(Before(now, ttl, acts, i), acts[i])
    ensures Inv(Before(now, ttl, acts, i))
  {
    AfterStep(Init(now, ttl), acts, i);
    RunsKeepInv(now, ttl, acts[..i]);
  }

  lemma StartsEmpty(now: int, ttl: int, acts: seq<Action>)
    ensures Before(now, ttl, acts, 0).db.tasks == map[]
  {
    assert acts[..0] == [];
  }

  /** No step undoes a success. */
  lemma {:induction false} SuccessStays(s: System, a: Action, t: Id)
    requires Inv(s) && SucceededIn(s, t)
    ensures SucceededIn(Next(s, a), t)
  {
    hide Next, Inv;
    TasksStep(s, a, t);
  }

  lemma {:induction false} SuccessIsFinal(now: int, ttl: int, acts: seq<Action>, i: nat, j: nat, t: Id)
    requires i <= j <= |acts| && SucceededIn(Before(now, ttl, acts, i), t)
    ensures SucceededIn(Before(now, ttl, acts, j), t)
  {
    hide After, Before, Next;
    if i < j {
      SuccessIsFinal(now, ttl, acts, i, j - 1, t);
      NextBefore(now, ttl, acts, j - 1);
      SuccessStays(Before(now, ttl, acts, j - 1), acts[j - 1], t);
    }
  }

  /** A task that counts an attempt was claimed earlier in the run. */
  lemma {:induction false} AttemptMeansClaim(now: int, ttl: int, acts: seq<Action>, i: nat, t: Id) returns (h: nat)
    requires i <= |acts| && t in Before(now, ttl, acts, i).db.tasks
    requires Before(now, ttl, acts, i).db.tasks[t].attemptCount >= 1
    ensures h < i && ClaimsAt(now, ttl, acts, h, t)
    decreases i
  {
    hide Next, Inv, SessionsAttempted, Before, After, Claims;
    StartsEmpty(now, ttl, acts);
    assert i > 0;
    var s := Before(now, ttl, acts, i - 1);
    NextBefore(now, ttl, acts, i - 1);
    InvMeansAttempted(s);
    if t in s.db.tasks {
      ClaimBumps(s, acts[i - 1], t);
      if ClaimsAt(now, ttl, acts, i - 1, t) {
        h := i - 1;
      } else {
        h := AttemptMeansClaim(now, ttl, acts, i - 1, t);
      }
    } else {
      FreshTask(s, acts[i - 1], t);
      assert false;
    }
  }

  /** Only a task that has been claimed can become a success. */
  lemma {:induction false} SuccessNeedsAttempt(s: System, a: Action, t: Id)
    requires Inv(s) && !SucceededIn(s, t) && SucceededIn(Next(s, a), t)
    ensures t in s.db.tasks && s.db.tasks[t].attemptCount >= 1
  {
    hide Next, Inv, SessionsAttempted;
    InvMeansAttempted(s);
    if t in s.db.tasks {
      TasksStep(s, a, t);
      InvMeansTaskOk(s, t);
    } else {
      FreshTask(s, a, t);
    }
  }

  /** A success has a moment at which it happened, and a claim before that. */
  lemma {:induction false} SuccessHasHistory(now: int, ttl: int, acts: seq<Action>, i: nat, t: Id)
    returns (h: nat, k: nat)
    requires i <= |acts| && SucceededIn(Before(now, ttl, acts, i), t)
    ensures h < k < i && ClaimsAt(now, ttl, acts, h, t) && SucceedsAt(now, ttl, acts, k, t)
    decreases i
  {
    hide Next, Inv, Before, After, Claims;
    StartsEmpty(now, ttl, acts);
    assert i > 0;
    if SucceededIn(Before(now, ttl, acts, i - 1), t) {
      h, k := SuccessHasHistory(now, ttl, acts, i - 1, t);
    } else {
      k := i - 1;
      NextBefore(now, ttl, acts, k);
      SuccessNeedsAttempt(Before(now, ttl, acts, k), acts[k], t);
      h := AttemptMeansClaim(now, ttl, acts, k, t);
    }
  }

  /**
   Whenever t is claimed, each task it depends on at that moment has been claimed before,
   has succeeded after that claim and before this one, and stays succeeded to the end.
   Recovery and retries may be anywhere in the run.
   */
  lemma {:induction false} ClaimsFollowDependencies(now: int, ttl: int, acts: seq<Action>, i: nat, t: Id, p: Id)
    requires ClaimsAt(now, ttl, acts, i, t) && Dep(t, p) in Before(now, ttl, acts, i).db.deps
    ensures exists h: nat, k: nat :: h < k < i && ClaimsAt(now, ttl, acts, h, p) && SucceedsAt(now, ttl, acts, k, p)
    ensures forall j | i <= j <= |acts| :: SucceededIn(Before(now, ttl, acts, j), p)
  {
    hide After, Before, Next;
    var s := Before(now, ttl, acts, i);
    assert SucceededIn(s, p) by {
      assert Eligible(s.db, acts[i].mission, acts[i].skills, t);
    }
    var h, k := SuccessHasHistory(now, ttl, acts, i, p);
    forall j | i <= j <= |acts| ensures SucceededIn(Before(now, ttl, acts, j), p) {
      SuccessIsFinal(now, ttl, acts, i, j, p);
    }
  }

  ghost predicate FirstClaimAt(now: int, ttl: int, acts: seq<Action>, i: nat, t: Id) {
    ClaimsAt(now, ttl, acts, i, t) && forall j | 0 <= j < i :: !ClaimsAt(now, ttl, acts, j, t)
  }

  /** First claims are a linear extension of the dependency order. */
  lemma {:induction false} FirstClaimsExtendOrder(now: int, ttl: int, acts: seq<Action>, i: nat, j: nat, t: Id, p: Id)
    requires FirstClaimAt(now, ttl, acts, i, t) && Dep(t, p) in Before(now, ttl, acts, i).db.deps
    requires FirstClaimAt(now, ttl, acts, j, p)
    ensures j < i
  {
    ClaimsFollowDependencies(now, ttl, acts, i, t, p);
  }

  /** Over all missions at once, the stored dependencies never form a cycle. */
  lemma {:induction false} StoredDependenciesStayAcyclic(now: int, ttl: int, acts: seq<Action>)
    ensures var db := After(Init(now, ttl), acts).db;
            && !Graph.Cyclic(Edges(db.deps))
            && (forall d | d in db.deps :: d.task in db.tasks && d.dependsOn in db.tasks
                                           && db.tasks[d.task].mission == db.tasks[d.dependsOn].mission)
  {
    RunsKeepInv(now, ttl, acts);
    hide After;
  }
}
