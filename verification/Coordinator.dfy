/**
 The worker coordinator's units of work, row by row in place, each proved to leave the
 tables exactly as the shared-table protocol says.
 */
module Coordinator {
  import opened Graph
  import opened DagValidator
  import opened Wrappers
  import opened TaskStates
  import opened Tables
  import opened Scheduler

  /** sorted(tasks, key=(priority, created_at)) */
  ghost predicate InClaimOrder(tasks: map<Id, TaskRow>, ids: seq<Id>) {
    && (forall t | t in ids :: t in tasks)
    && (forall i, j | 0 <= i < j < |ids| :: NoLater(tasks[ids[i]], tasks[ids[j]]))
  }

  method Sorted(tasks: map<Id, TaskRow>, ids: seq<Id>) returns (r: seq<Id>)
    requires forall t | t in ids :: t in tasks
    ensures multiset(r) == multiset(ids) && InClaimOrder(tasks, r)
    ensures forall t :: t in r <==> t in ids
    ensures forall i, j | 0 <= i < j < |r| ::
              || tasks[r[i]].priority < tasks[r[j]].priority
              || (tasks[r[i]].priority == tasks[r[j]].priority && tasks[r[i]].createdAt <= tasks[r[j]].createdAt)
  {
    r := [];
    assert ids[..0] == [];
    assert InClaimOrder(tasks, r);
    hide *;
    for n := 0 to |ids|
      invariant multiset(r) == multiset(ids[..n]) && InClaimOrder(tasks, r)
    {
      assert ids[n] in ids;
      var k := Place(tasks, r, ids[n]);
      InsertInOrder(tasks, r, k, ids[n]);
      InsertAdds(r, k, ids[n]);
      OneMore(ids, n);
      r := Insert(r, k, ids[n]);
    }
    assert ids[..|ids|] == ids;
    SameMembers(r, ids);
    ByPriorityThenAge(tasks, r);
  }

  lemma ByPriorityThenAge(tasks: map<Id, TaskRow>, r: seq<Id>)
    requires InClaimOrder(tasks, r)
    ensures forall i, j | 0 <= i < j < |r| ::
              || tasks[r[i]].priority < tasks[r[j]].priority
              || (tasks[r[i]].priority == tasks[r[j]].priority && tasks[r[i]].createdAt <= tasks[r[j]].createdAt)
  {
  }

  lemma OneMore(ids: seq<Id>, n: nat)
    requires n < |ids|
    ensures multiset(ids[..n + 1]) == multiset(ids[..n]) + multiset{ids[n]}
  {
    assert ids[..n + 1] == ids[..n] + [ids[n]];
  }

  lemma SameMembers(a: seq<Id>, b: seq<Id>)
    requires multiset(a) == multiset(b)
    ensures forall t :: t in a <==> t in b
  {
    assert forall t :: (t in a <==> t in multiset(a)) && (t in b <==> t in multiset(b));
  }

  /** Everything from place k on comes no earlier than t, and what is just before it no later. */
  ghost predicate FitsAt(tasks: map<Id, TaskRow>, r: seq<Id>, k: nat, t: Id) {
    && k <= |r| && t in tasks && (forall u | u in r :: u in tasks)
    && (forall i | k <= i < |r| :: NoLater(tasks[t], tasks[r[i]]))
    && (k > 0 ==> NoLater(tasks[r[k - 1]], tasks[t]))
  }

  method Place(tasks: map<Id, TaskRow>, r: seq<Id>, t: Id) returns (k: nat)
    requires t in tasks && InClaimOrder(tasks, r)
    ensures k <= |r| && FitsAt(tasks, r, k, t)
  {
    assert forall u | u in r :: u in tasks;
    hide InClaimOrder;
    k := |r|;
    while k > 0
      invariant k <= |r| && forall i | k <= i < |r| :: NoLater(tasks[t], tasks[r[i]])
    {
      var before := tasks[r[k - 1]];
      if before.priority < tasks[t].priority
         || (before.priority == tasks[t].priority && before.createdAt <= tasks[t].createdAt) {
        break;
      }
      k := k - 1;
    }
  }

  lemma OrderedOn(a: TaskRow, b: TaskRow, c: TaskRow)
    requires NoLater(a, b) && NoLater(b, c)
    ensures NoLater(a, c)
  {
  }

  function Insert(r: seq<Id>, k: nat, t: Id): (s: seq<Id>)
    requires k <= |r|
    ensures |s| == |r| + 1
    ensures forall j | 0 <= j < |s| :: s[j] == if j < k then r[j] else if j == k then t else r[j - 1]
  {
    r[..k] + [t] + r[k..]
  }

  lemma InsertAdds(r: seq<Id>, k: nat, t: Id)
    requires k <= |r|
    ensures multiset(Insert(r, k, t)) == multiset(r) + multiset{t}
    ensures forall u :: u in Insert(r, k, t) <==> u in r || u == t
  {
    assert r == r[..k] + r[k..];
    assert forall u :: (u in Insert(r, k, t) <==> u in multiset(Insert(r, k, t))) && (u in r <==> u in multiset(r));
  }

  lemma InsertInOrder(tasks: map<Id, TaskRow>, r: seq<Id>, k: nat, t: Id)
    requires k <= |r| && InClaimOrder(tasks, r) && FitsAt(tasks, r, k, t)
    ensures InClaimOrder(tasks, Insert(r, k, t))
  {
    hide NoLater;
    forall i | 0 <= i < k ensures NoLater(tasks[r[i]], tasks[t]) {
      if i < k - 1 {
        OrderedOn(tasks[r[i]], tasks[r[k - 1]], tasks[t]);
      }
    }
    var s := Insert(r, k, t);
    forall u | u in s ensures u in tasks {
      InsertAdds(r, k, t);
    }
    forall i, j | 0 <= i < j < |s| ensures NoLater(tasks[s[i]], tasks[s[j]]) {
      assert s[i] == if i < k then r[i] else if i == k then t else r[i - 1];
      assert s[j] == if j < k then r[j] else if j == k then t else r[j - 1];
      if i < k < j {
        assert NoLater(tasks[r[i]], tasks[r[j - 1]]);
      } else if k < i {
        assert NoLater(tasks[r[i - 1]], tasks[r[j - 1]]);
      }
    }
  }

  /** Some dependency of t is missing from the mission or has not succeeded, in the rows read. */
  ghost predicate OpenDependency(read: Db, m: Id, t: Id) {
    exists d :: d in read.deps && d.task == t
             && !(d.dependsOn in read.tasks && read.tasks[d.dependsOn].mission == m
                  && read.tasks[d.dependsOn].status == Succeeded)
  }

  ghost predicate AnyOpen(read: Db, m: Id, parents: seq<Id>) {
    exists i :: 0 <= i < |parents| && !HasSucceeded(read.tasks, m, parents[i])
  }

  lemma OpenParents(read: Db, m: Id, t: Id)
    requires InMission(read.tasks, m, t)
    ensures OpenDependency(read, m, t) <==> AnyOpen(read, m, Parents(MissionDeps(read.deps, read.tasks, m), t))
  {
    ParentsOfSlice(read.deps, read.tasks, m, t);
    hide MissionDeps, HasSucceeded;
    var parents := Parents(read.deps, t);
    if d :| d in read.deps && d.task == t && !HasSucceeded(read.tasks, m, d.dependsOn) {
      assert d == Dep(t, d.dependsOn) && d.dependsOn in parents;
      var i :| 0 <= i < |parents| && parents[i] == d.dependsOn;
    }
    if i :| 0 <= i < |parents| && !HasSucceeded(read.tasks, m, parents[i]) {
      assert parents[i] in parents && Dep(t, parents[i]) in read.deps;
    }
  }

  method HasOpenDependency(read: Db, m: Id, t: Id) returns (blocked: bool)
    requires InMission(read.tasks, m, t)
    ensures blocked <==> OpenDependency(read, m, t)
  {
    hide *;
    OpenParents(read, m, t);
    blocked := FindOpen(read, m, Parents(MissionDeps(read.deps, read.tasks, m), t));
  }

  method FindOpen(read: Db, m: Id, parents: seq<Id>) returns (blocked: bool)
    ensures blocked <==> AnyOpen(read, m, parents)
  {
    blocked := false;
    for i := 0 to |parents|
      invariant !blocked && forall j | 0 <= j < i :: HasSucceeded(read.tasks, m, parents[j])
    {
      var p := parents[i];
      if p !in read.tasks || read.tasks[p].mission != m || read.tasks[p].status != Succeeded {
        blocked := true;
        break;
      }
    }
  }

  /** Eligible when it was read, and still QUEUED now. */
  ghost predicate Claimable(read: Db, tasks: map<Id, TaskRow>, m: Id, skills: set<Capability>, t: Id) {
    Eligible(read, m, skills, t) && t in tasks && tasks[t].status == Queued
  }

  /** The task to take: claimable, and no claimable one comes strictly before it. */
  ghost predicate BestLeft(read: Db, tasks: map<Id, TaskRow>, m: Id, skills: set<Capability>, t: Id) {
    && m in read.executing && Claimable(read, tasks, m, skills, t)
    && forall u | u in read.tasks && Claimable(read, tasks, m, skills, u) :: NoLater(read.tasks[t], read.tasks[u])
  }

  /** In one step with the read, the task to take is the best claim of all. */
  lemma BestLeftIsBest(db: Db, m: Id, skills: set<Capability>, t: Id)
    ensures Claimable(db, db.tasks, m, skills, t) <==> Eligible(db, m, skills, t)
    ensures BestLeft(db, db.tasks, m, skills, t) <==> BestClaim(db, m, skills, t)
  {
  }

  class WorkerCoordinator {
    const store: Store
    const workerId: Id
    const missionId: Id
    const skills: set<Capability>
    const ttl: int
    var currentLease: Option<Id>

    constructor (store: Store, workerId: Id, missionId: Id, skills: set<Capability>, ttl: int)
      ensures this.store == store && this.workerId == workerId && this.missionId == missionId
      ensures this.skills == skills && this.ttl == ttl && currentLease == None
    {
      this.store, this.workerId, this.missionId := store, workerId, missionId;
      this.skills, this.ttl, currentLease := skills, ttl, None;
    }

    /**
     Claims the first eligible task of those read, in (priority, created_at) order, that no other worker has
     taken since; nothing if the mission is not executing or no such task is left.  `lease` and `exec` are the
     new rows' ids.
     */
    method ClaimNextTask(read: Db, now: int, lease: Id, exec: Id) returns (claimed: Option<Id>)
      requires lease !in store.leases && exec !in store.execs
      modifies store
      ensures claimed.None? <==>
                missionId !in read.executing || !exists t :: Claimable(read, old(store.tasks), missionId, skills, t)
      ensures claimed.None? ==> store.Rows() == old(store.Rows())
      ensures claimed.Some? ==>
                && BestLeft(read, old(store.tasks), missionId, skills, claimed.value)
                && store.Rows() == ClaimRows(old(store.Rows()), now, ttl, workerId, claimed.value, lease, exec)
      ensures claimed.Some? ==>
                var t := claimed.value;
                && missionId in read.executing
                && t in read.tasks && read.tasks[t].mission == missionId && read.tasks[t].status == Queued
                && RequiredCapability(read.tasks[t].taskType) in skills
                && (forall p | Dep(t, p) in read.deps ::
                      p in read.tasks && read.tasks[p].mission == missionId && read.tasks[p].status == Succeeded)
                && forall u | u in read.tasks && Claimable(read, old(store.tasks), missionId, skills, u) ::
                     || read.tasks[t].priority < read.tasks[u].priority
                     || (read.tasks[t].priority == read.tasks[u].priority
                         && read.tasks[t].createdAt <= read.tasks[u].createdAt)
      ensures claimed.Some? ==>
                var t := claimed.value;
                && t in old(store.tasks) && old(store.tasks[t]).status == Queued
                && var attempt := old(store.tasks[t]).attemptCount + 1;
                && store.tasks == old(store.tasks)[t := old(store.tasks[t]).(status := Running, attemptCount := attempt,
                                                                             assignedTo := Some(workerId))]
                && store.execs == old(store.execs)[exec := ExecRow(t, attempt, ExecRunning)]
                && store.leases == old(store.leases)[lease := LeaseRow(workerId, t, exec, now, now + ttl, now, 0)]
                && store.deps == old(store.deps) && store.executing == old(store.executing)
    {
      if missionId !in read.executing {
        return None;
      }
      var ids := TasksOfMission(read.tasks, missionId);
      ids := Sorted(read.tasks, ids);
      ghost var before := store.Rows();
      for i := 0 to |ids|
        invariant store.Rows() == before
        invariant forall j | 0 <= j < i :: !Claimable(read, before.tasks, missionId, skills, ids[j])
      {
        var t := ids[i];
        assert t in ids;
        if read.tasks[t].status != Queued {
          continue;
        }
        if RequiredCapability(read.tasks[t].taskType) !in skills {
          continue;
        }
        var blocked := HasOpenDependency(read, missionId, t);
        if blocked {
          continue;
        }
        assert Eligible(read, missionId, skills, t);
        var row := store.ClaimTask(t, workerId);
        if row.None? {
          // Lost the race; try the next candidate.
          continue;
        }
        BestIsFirst(read, before.tasks, missionId, skills, ids, i);
        var attempt := row.value.attemptCount;
        store.execs := store.execs[exec := ExecRow(t, attempt, ExecRunning)];
        store.leases := store.leases[lease := LeaseRow(workerId, t, exec, now, now + ttl, now, 0)];
        return Some(t);
      }
      assert forall t | Claimable(read, before.tasks, missionId, skills, t) :: t in ids;
      return None;
    }

    /** Extends the lease if this worker still owns it; otherwise the heartbeat loop gives up. */
    method RenewLease(now: int, l: Id) returns (renewed: bool)
      modifies store`leases
      ensures renewed <==> l in old(store.leases) && old(store.leases[l]).worker == workerId
                           && old(store.leases[l]).expiresAt > now
      ensures store.leases ==
              if !renewed then old(store.leases)
              else old(store.leases)[l := old(store.leases[l]).(expiresAt := now + ttl, lastHeartbeat := now,
                                                                renewedCount := old(store.leases[l]).renewedCount + 1)]
      ensures store.Rows() == RenewRows(old(store.Rows()), now, ttl, workerId, l)
    {
      if l !in store.leases || store.leases[l].worker != workerId || store.leases[l].expiresAt <= now {
        return false;
      }
      var lease := store.leases[l];
      lease := lease.(expiresAt := now + ttl);
      lease := lease.(lastHeartbeat := now);
      lease := lease.(renewedCount := lease.renewedCount + 1);
      store.leases := store.leases[l := lease];
      return true;
    }

    method AssertOwnership(now: int, l: Id) returns (owned: bool)
      ensures owned <==> l in store.leases && store.leases[l].worker == workerId && store.leases[l].expiresAt > now
      ensures owned <==> Owns(store.Rows(), now, workerId, l)
    {
      return !(l !in store.leases || store.leases[l].worker != workerId || store.leases[l].expiresAt <= now);
    }

    method ReleaseLease(now: int, l: Id)
      modifies store`leases
      ensures store.leases ==
              if l in old(store.leases) && old(store.leases[l]).worker == workerId
              then old(store.leases)[l := old(store.leases[l]).(expiresAt := now)] else old(store.leases)
      ensures store.Rows() == ReleaseRows(old(store.Rows()), now, workerId, l)
    {
      if l in store.leases && store.leases[l].worker == workerId {
        store.leases := store.leases[l := store.leases[l].(expiresAt := now)];
      }
    }

    /**
     shutdown: wait for the poll in flight, second by second, then release what it still holds.  `ended` says
     in which second that poll ends, if it does; the task is not touched.
     */
    method Shutdown(now: int, graceful: bool, seconds: nat, ended: nat -> bool)
      modifies this`currentLease, store`leases
      ensures currentLease == None
      ensures store.Rows() ==
              if old(currentLease).None? || (graceful && exists k :: 0 <= k < seconds && ended(k))
              then old(store.Rows())
              else ReleaseRows(old(store.Rows()), now, workerId, old(currentLease).value)
      ensures forall l | l in old(store.leases) :: l in store.leases
                && store.leases[l] == if old(currentLease) == Some(l) && old(store.leases[l]).worker == workerId
                                         && !(graceful && exists k :: 0 <= k < seconds && ended(k))
                                      then old(store.leases[l]).(expiresAt := now) else old(store.leases[l])
    {
      if graceful {
        var waited := 0;
        while waited < seconds && currentLease.Some?
          invariant waited <= seconds && store.Rows() == old(store.Rows())
          invariant currentLease == if exists k :: 0 <= k < waited && ended(k) then None else old(currentLease)
        {
          if ended(waited) {
            currentLease := None;
          }
          waited := waited + 1;
        }
      }
      match currentLease
      case None =>
      case Some(l) =>
        ReleaseLease(now, l);
        currentLease := None;
    }

    /** _complete_task after its ownership check; false when it raises, leaving every row as it was. */
    method CompleteTask(now: int, t: Id, e: Id, l: Id) returns (done: bool)
      modifies store
      ensures done <==> t in old(store.tasks) && old(store.tasks[t].status) == Running
      ensures store.Rows() == if done then CompleteRows(old(store.Rows()), now, t, e, l) else old(store.Rows())
      ensures done ==>
                && store.tasks == old(store.tasks)[t := old(store.tasks[t]).(status := Succeeded)]
                && store.execs == (if e in old(store.execs)
                                   then old(store.execs)[e := old(store.execs[e]).(status := ExecSucceeded)]
                                   else old(store.execs))
                && store.leases == (if l !in old(store.leases) then old(store.leases)
                                    else old(store.leases)[l := old(store.leases[l]).(
                                           expiresAt := now, lastHeartbeat := old(store.leases[l]).claimedAt,
                                           renewedCount := 0)])
    {
      if t !in store.tasks {
        return false;
      }
      var task := store.tasks[t];
      var moved := Transition(task.status, Succeeded);
      if moved.InvalidTransition? {
        return false;
      }
      task := task.(status := moved.status);
      store.tasks := store.tasks[t := task];
      store.UpdateExecution(e, ExecSucceeded);
      if l in store.leases {
        // The lease object held since the claim, not the stored row, is written back.
        var lease := store.leases[l].(lastHeartbeat := store.leases[l].claimedAt, renewedCount := 0);
        lease := lease.(expiresAt := now);
        store.leases := store.leases[l := lease];
      }
      return true;
    }

    /** _fail_task; every caller passes retryable=True. */
    method FailTask(now: int, t: Id, e: Id, l: Id)
      modifies store
      ensures store.Rows() == FailRows(old(store.Rows()), now, workerId, t, e, l)
      ensures t !in old(store.tasks) ==> store.Rows() == old(store.Rows())
      ensures t in old(store.tasks) ==>
                && store.tasks == old(store.tasks)[t := old(store.tasks[t]).(status :=
                     if old(store.tasks[t]).status !in {Running, Failed} then old(store.tasks[t]).status
                     else if old(store.tasks[t]).attemptCount < old(store.tasks[t]).maxAttempts then Queued
                     else Failed)]
                && store.execs == (if e in old(store.execs)
                                   then old(store.execs)[e := old(store.execs[e]).(status := ExecFailed)]
                                   else old(store.execs))
                && store.leases == (if l in old(store.leases) && old(store.leases[l]).worker == workerId
                                    then old(store.leases)[l := old(store.leases[l]).(expiresAt := now)]
                                    else old(store.leases))
    {
      if t !in store.tasks {
        return;
      }
      var task := store.tasks[t];
      var moved := Transition(task.status, Failed);
      if moved.Moved? {
        task := task.(status := moved.status);
        store.tasks := store.tasks[t := task];
      }
      store.UpdateExecution(e, ExecFailed);
      if task.attemptCount < task.maxAttempts {
        moved := Transition(task.status, Retrying);
        if moved.Moved? {
          moved := Transition(moved.status, Queued);
          if moved.Moved? {
            task := task.(status := moved.status);
            store.tasks := store.tasks[t := task];
          }
        }
      }
      assert store.tasks == old(store.tasks)[t := old(store.tasks[t]).(status := FailedStatus(old(store.tasks[t])))];
      ReleaseLease(now, l);
    }
  }

  // ----------------------------------------------------------------------- recovery

  /** task_leases.get_stale_leases, in whatever order the database gives them. */
  method GetStaleLeases(store: Store, before: int) returns (ids: seq<Id>)
    ensures Distinct(ids) && forall l :: l in ids <==> l in store.leases && store.leases[l].expiresAt < before
  {
    ids := [];
    var rest := store.leases.Keys;
    while rest != {}
      invariant rest <= store.leases.Keys && Distinct(ids)
      invariant forall l :: l in ids <==> l in store.leases && store.leases[l].expiresAt < before && l !in rest
      decreases rest
    {
      var l :| l in rest;
      rest := rest - {l};
      if store.leases[l].expiresAt < before {
        ids := ids + [l];
      }
    }
  }

  /** What the session sees of the executions before its next commit. */
  lemma FailOneMore(db: Db, stale: set<Id>, l: Id, execs: map<Id, ExecRow>)
    requires execs == FailExecsOf(db, stale).execs && l in db.leases
    ensures FailExecsOf(db, stale + {l}).execs ==
              var e := db.leases[l].exec;
              if e in execs && execs[e].status != ExecSucceeded then execs[e := execs[e].(status := ExecFailed)]
              else execs
  {
    var after := FailExecsOf(db, stale + {l}).execs;
    forall e | e in db.execs
      ensures after[e] == if e == db.leases[l].exec && execs[e].status != ExecSucceeded
                          then execs[e].(status := ExecFailed) else execs[e]
    {
      if exists k :: k in stale && k in db.leases && db.leases[k].exec == e {
        var k :| k in stale && k in db.leases && db.leases[k].exec == e;
        assert k in stale + {l};
      } else if e == db.leases[l].exec {
        assert l in stale + {l};
      }
    }
  }

  lemma NothingRecovered(db: Db, now: int)
    ensures FailExecsOf(db, {}).execs == db.execs && ApplyRecoveries(db, now, []) == db
    ensures RecoveredBy(db, db.tasks, now, [])
  {
  }

  lemma CommitRecovery(db: Db, now: int, commits: seq<(Id, set<Id>)>, l: Id, skipped: set<Id>)
    ensures ApplyRecoveries(db, now, commits + [(l, skipped)])
            == RecoverRows(ApplyRecoveries(db, now, commits), now, l, skipped)
  {
    assert (commits + [(l, skipped)])[..|commits|] == commits;
  }

  /** One commit applied to the tables is the protocol's recovery of that lease. */
  lemma CommitMatches(db: Db, now: int, l: Id, skipped: set<Id>, execs: map<Id, ExecRow>)
    requires Recovers(db, now, l) && (forall k | k in skipped :: StaleFor(db, now, k))
    requires execs == FailExecsOf(db, skipped + {l}).execs
    ensures SetStatus(db.(execs := execs), db.leases[l].task, Queued) == RecoverRows(db, now, l, skipped)
  {
    assert {l} + (set k | k in skipped && StaleFor(db, now, k)) == skipped + {l};
  }

  /** The tasks that lose an expired lease, are RUNNING and have attempts left. */
  ghost function Recoverable(db: Db, now: int, done: seq<Id>): set<Id> {
    set t | t in db.tasks && TakenBy(db, now, t, done)
  }

  /** The i-th lease listed is one for execution e, and its task is RUNNING or QUEUED. */
  ghost predicate Loses(db: Db, stale: seq<Id>, i: nat, e: Id)
    requires i < |stale|
  {
    && stale[i] in db.leases && db.leases[stale[i]].exec == e
    && db.leases[stale[i]].task in db.tasks && db.tasks[db.leases[stale[i]].task].status in {Running, Queued}
  }

  /** The j-th lease listed is the first of its task's, which is RUNNING with attempts left: it is committed. */
  ghost predicate Commits(db: Db, stale: seq<Id>, j: nat)
    requires j < |stale|
  {
    && stale[j] in db.leases && db.leases[stale[j]].task in db.tasks
    && var t := db.leases[stale[j]].task;
    && db.tasks[t].status == Running && db.tasks[t].attemptCount < db.tasks[t].maxAttempts
    && forall k | 0 <= k < j :: !(stale[k] in db.leases && db.leases[stale[k]].task == t)
  }

  ghost predicate LostBy(db: Db, stale: seq<Id>, n: nat, e: Id)
    requires n <= |stale|
  {
    exists i | 0 <= i < n :: Loses(db, stale, i, e)
  }

  /** Marked failed in the session by the n-th lease, and committed by then. */
  ghost predicate FailedBy(db: Db, stale: seq<Id>, n: nat, e: Id)
    requires n <= |stale|
  {
    exists i, j | 0 <= i <= j < n :: Loses(db, stale, i, e) && Commits(db, stale, j)
  }

  ghost predicate SessionExecs(db: Db, stale: seq<Id>, n: nat, execs: map<Id, ExecRow>)
    requires n <= |stale|
  {
    && execs.Keys == db.execs.Keys
    && forall e | e in db.execs ::
         execs[e] == if db.execs[e].status != ExecSucceeded && LostBy(db, stale, n, e)
                     then db.execs[e].(status := ExecFailed) else db.execs[e]
  }

  ghost predicate StoredExecs(db: Db, stale: seq<Id>, n: nat, execs: map<Id, ExecRow>)
    requires n <= |stale|
  {
    && execs.Keys == db.execs.Keys
    && forall e | e in db.execs ::
         execs[e] == if db.execs[e].status != ExecSucceeded && FailedBy(db, stale, n, e)
                     then db.execs[e].(status := ExecFailed) else db.execs[e]
  }

  lemma LostNext(db: Db, stale: seq<Id>, n: nat, e: Id)
    requires n < |stale|
    ensures LostBy(db, stale, n + 1, e) <==> LostBy(db, stale, n, e) || Loses(db, stale, n, e)
  {
  }

  lemma FailedNext(db: Db, stale: seq<Id>, n: nat, e: Id)
    requires n < |stale|
    ensures FailedBy(db, stale, n + 1, e) <==>
              if Commits(db, stale, n) then LostBy(db, stale, n + 1, e) else FailedBy(db, stale, n, e)
  {
    hide Loses, Commits;
    if FailedBy(db, stale, n + 1, e) {
      var i, j :| 0 <= i <= j < n + 1 && Loses(db, stale, i, e) && Commits(db, stale, j);
    }
  }

  /** The session's execution rows after one more stale lease, which does or does not touch its execution. */
  lemma SessionNext(db: Db, stale: seq<Id>, n: nat, execs: map<Id, ExecRow>)
    requires n < |stale| && SessionExecs(db, stale, n, execs) && stale[n] in db.leases
    ensures var lease := db.leases[stale[n]];
            if lease.task in db.tasks && db.tasks[lease.task].status in {Running, Queued}
               && lease.exec in execs && execs[lease.exec].status != ExecSucceeded
            then SessionExecs(db, stale, n + 1, execs[lease.exec := execs[lease.exec].(status := ExecFailed)])
            else SessionExecs(db, stale, n + 1, execs)
  {
    hide LostBy;
    forall e | e in db.execs
      ensures LostBy(db, stale, n + 1, e) <==> LostBy(db, stale, n, e) || Loses(db, stale, n, e)
    {
      LostNext(db, stale, n, e);
    }
  }

  /** The stored execution rows: a commit stores what the session has. */
  lemma StoredNext(db: Db, stale: seq<Id>, n: nat, stored: map<Id, ExecRow>, session: map<Id, ExecRow>)
    requires n < |stale| && StoredExecs(db, stale, n, stored) && SessionExecs(db, stale, n + 1, session)
    ensures StoredExecs(db, stale, n + 1, if Commits(db, stale, n) then session else stored)
  {
    hide LostBy, FailedBy, Commits;
    forall e | e in db.execs
      ensures FailedBy(db, stale, n + 1, e) <==>
                if Commits(db, stale, n) then LostBy(db, stale, n + 1, e) else FailedBy(db, stale, n, e)
    {
      FailedNext(db, stale, n, e);
    }
  }

  /** A lease is committed when its task is RUNNING with attempts left in the rows as they are by then. */
  lemma CommitsNow(db: Db, tasks: map<Id, TaskRow>, now: int, stale: seq<Id>, n: nat)
    requires n < |stale| && RecoveredBy(db, tasks, now, stale[..n])
    requires forall l | l in stale :: l in db.leases && db.leases[l].expiresAt < now
    ensures var t := db.leases[stale[n]].task;
            Commits(db, stale, n) <==>
              t in tasks && tasks[t].status == Running && tasks[t].attemptCount < tasks[t].maxAttempts
  {
    assert stale[n] in stale;
    var t := db.leases[stale[n]].task;
    if t in db.tasks && db.tasks[t].status == Running && db.tasks[t].attemptCount < db.tasks[t].maxAttempts {
      if TakenBy(db, now, t, stale[..n]) {
        var l :| l in stale[..n] && Recovers(db, now, l) && db.leases[l].task == t;
        var k :| 0 <= k < n && stale[..n][k] == l;
        assert stale[k] == l && l in stale;
      } else {
        forall k | 0 <= k < n ensures db.leases[stale[k]].task != t {
          assert stale[k] in stale && stale[k] in stale[..n];
          if db.leases[stale[k]].task == t {
            assert Recovers(db, now, stale[k]);
          }
        }
      }
    }
  }

  /** A commit recovers one task more. */
  lemma CountNext(db: Db, now: int, tasks: map<Id, TaskRow>, stale: seq<Id>, n: nat)
    requires n < |stale| && RecoveredBy(db, tasks, now, stale[..n])
    requires forall l | l in stale :: l in db.leases && db.leases[l].expiresAt < now
    ensures |Recoverable(db, now, stale[..n + 1])|
            == |Recoverable(db, now, stale[..n])| + if Commits(db, stale, n) then 1 else 0
  {
    var l := stale[n];
    var t := db.leases[l].task;
    assert l in stale;
    CommitsNow(db, tasks, now, stale, n);
    hide Commits;
    assert stale[..n + 1] == stale[..n] + [l];
    forall u | u in db.tasks
      ensures TakenBy(db, now, u, stale[..n + 1]) <==>
                TakenBy(db, now, u, stale[..n]) || (u == t && Recovers(db, now, l))
    {
      TakenNext(db, now, u, stale[..n], l);
    }
    var earlier := Recoverable(db, now, stale[..n]);
    if Commits(db, stale, n) {
      assert t !in earlier;
      assert Recoverable(db, now, stale[..n + 1]) == earlier + {t};
    } else {
      if t in db.tasks && Recovers(db, now, l) {
        assert TakenBy(db, now, t, stale[..n]);
      }
      assert Recoverable(db, now, stale[..n + 1]) == earlier;
    }
  }

  lemma TakenNext(db: Db, now: int, u: Id, done: seq<Id>, l: Id)
    requires l in db.leases
    ensures TakenBy(db, now, u, done + [l]) <==>
              TakenBy(db, now, u, done) || (u == db.leases[l].task && Recovers(db, now, l))
  {
    if TakenBy(db, now, u, done) {
      var k :| k in done && Recovers(db, now, k) && db.leases[k].task == u;
      assert k in done + [l];
    }
    if u == db.leases[l].task && Recovers(db, now, l) {
      assert l in done + [l];
    }
  }

  /** The status recover_stale finds is RUNNING or QUEUED exactly when it was so to begin with. */
  lemma StillOpen(db: Db, tasks: map<Id, TaskRow>, now: int, done: seq<Id>, t: Id)
    requires RecoveredBy(db, tasks, now, done)
    ensures t in tasks && tasks[t].status in {Running, Queued} <==>
              t in db.tasks && db.tasks[t].status in {Running, Queued}
  {
  }

  /** One stale lease: what the session, the tables and the count make of it. */
  lemma RecoverStep(db: Db, now: int, tasks: map<Id, TaskRow>, stale: seq<Id>, n: nat,
                    session: map<Id, ExecRow>, stored: map<Id, ExecRow>)
    requires n < |stale| && RecoveredBy(db, tasks, now, stale[..n])
    requires forall l | l in stale :: l in db.leases && db.leases[l].expiresAt < now
    requires SessionExecs(db, stale, n, session) && StoredExecs(db, stale, n, stored)
    ensures stale[n] in db.leases
    ensures var lease := db.leases[stale[n]];
            var open := lease.task in tasks && tasks[lease.task].status in {Running, Queued};
            var next := if open && lease.exec in session && session[lease.exec].status != ExecSucceeded
                        then session[lease.exec := session[lease.exec].(status := ExecFailed)] else session;
            var commits := open && tasks[lease.task].status == Running
                           && tasks[lease.task].attemptCount < tasks[lease.task].maxAttempts;
            && SessionExecs(db, stale, n + 1, next)
            && StoredExecs(db, stale, n + 1, if commits then next else stored)
            && |Recoverable(db, now, stale[..n + 1])|
               == |Recoverable(db, now, stale[..n])| + if commits then 1 else 0
  {
    assert stale[n] in stale;
    var lease := db.leases[stale[n]];
    StillOpen(db, tasks, now, stale[..n], lease.task);
    CommitsNow(db, tasks, now, stale, n);
    CountNext(db, now, tasks, stale, n);
    SessionNext(db, stale, n, session);
    hide RecoveredBy, SessionExecs, StoredExecs, Commits, Recoverable;
    var open := lease.task in tasks && tasks[lease.task].status in {Running, Queued};
    var next := if open && lease.exec in session && session[lease.exec].status != ExecSucceeded
                then session[lease.exec := session[lease.exec].(status := ExecFailed)] else session;
    StoredNext(db, stale, n, stored, next);
  }

  lemma NoneStaleYet(db: Db, now: int, stale: seq<Id>)
    ensures SessionExecs(db, stale, 0, db.execs) && StoredExecs(db, stale, 0, db.execs)
    ensures Recoverable(db, now, stale[..0]) == {}
  {
  }

  lemma RecoverableIs(db: Db, now: int, stale: seq<Id>)
    requires forall l :: l in stale <==> l in db.leases && db.leases[l].expiresAt < now
    ensures Recoverable(db, now, stale) ==
            set t | t in db.tasks && db.tasks[t].status == Running && db.tasks[t].attemptCount < db.tasks[t].maxAttempts
                    && exists l :: l in db.leases && db.leases[l].task == t && db.leases[l].expiresAt < now
  {
    forall t | t in db.tasks && db.tasks[t].status == Running && db.tasks[t].attemptCount < db.tasks[t].maxAttempts
      ensures TakenBy(db, now, t, stale) <==>
                exists l :: l in db.leases && db.leases[l].task == t && db.leases[l].expiresAt < now
    {
      if l :| l in db.leases && db.leases[l].task == t && db.leases[l].expiresAt < now {
        assert l in stale && Recovers(db, now, l);
      }
    }
  }

  /**
   WorkerCoordinator.recover_stale: requeues every RUNNING task with attempts left that lost an expired lease, and
   counts these tasks.  `stale` is the order in which the database listed the expired leases.  Executions marked
   failed for a lease whose task cannot be requeued only reach the tables with a later commit of the same call.
   */
  method RecoverStale(store: Store, now: int)
    returns (recovered: nat, stale: seq<Id>, ghost commits: seq<(Id, set<Id>)>)
    modifies store
    ensures Distinct(stale)
    ensures forall l :: l in stale <==> l in old(store.leases) && old(store.leases[l]).expiresAt < now
    ensures recovered ==
            |(set t | t in old(store.tasks) && old(store.tasks)[t].status == Running
                      && old(store.tasks)[t].attemptCount < old(store.tasks)[t].maxAttempts
                      && exists l :: l in old(store.leases) && old(store.leases)[l].task == t
                                     && old(store.leases)[l].expiresAt < now)|
    ensures store.tasks.Keys == old(store.tasks).Keys
    ensures forall t | t in old(store.tasks) ::
              store.tasks[t] ==
              if && old(store.tasks)[t].status == Running
                 && old(store.tasks)[t].attemptCount < old(store.tasks)[t].maxAttempts
                 && exists l :: l in old(store.leases) && old(store.leases)[l].task == t
                                && old(store.leases)[l].expiresAt < now
              then old(store.tasks)[t].(status := Queued) else old(store.tasks)[t]
    ensures StoredExecs(old(store.Rows()), stale, |stale|, store.execs)
    ensures store.leases == old(store.leases) && store.deps == old(store.deps)
            && store.executing == old(store.executing)
    ensures store.Rows() == ApplyRecoveries(old(store.Rows()), now, commits) && recovered == |commits|
    ensures forall t | t in old(store.tasks) ::
              store.tasks[t].status == RecoveredStatus(old(store.Rows()), now, t)
  {
    hide FailExecsOf, RecoverRows, ApplyRecoveries, RecoveredBy, RecoveredStatus;
    hide SessionExecs, StoredExecs, Recoverable;
    recovered, commits := 0, [];
    stale := GetStaleLeases(store, now);
    var execs := store.execs;
    ghost var skipped: set<Id> := {};
    ghost var before := store.Rows();
    NothingRecovered(before, now);
    NoneStaleYet(before, now, stale);
    for i := 0 to |stale|
      invariant store.Rows() == ApplyRecoveries(before, now, commits) && recovered == |commits|
      invariant store.leases == before.leases && store.deps == before.deps && store.executing == before.executing
      invariant execs == FailExecsOf(store.Rows(), skipped).execs
      invariant forall k | k in skipped :: StaleFor(store.Rows(), now, k)
      invariant RecoveredBy(before, store.tasks, now, stale[..i])
      invariant SessionExecs(before, stale, i, execs) && StoredExecs(before, stale, i, store.execs)
      invariant recovered == |Recoverable(before, now, stale[..i])|
    {
      var l := stale[i];
      assert l in stale;
      RecoverNext(before, store.tasks, now, stale[..i], l);
      RecoverStep(before, now, store.tasks, stale, i, execs, store.execs);
      assert stale[..i + 1] == stale[..i] + [l];
      var lease := store.leases[l];
      if lease.task !in store.tasks || store.tasks[lease.task].status !in {Running, Queued} {
        continue;
      }
      FailOneMore(store.Rows(), skipped, l, execs);
      if lease.exec in execs && execs[lease.exec].status != ExecSucceeded {
        execs := execs[lease.exec := execs[lease.exec].(status := ExecFailed)];
      }
      var task := store.tasks[lease.task];
      var requeued := Requeue(task);
      if task.attemptCount >= task.maxAttempts || requeued.InvalidTransition? {
        skipped := skipped + {l};
        continue;
      }
      CommitMatches(store.Rows(), now, l, skipped, execs);
      CommitRecovery(before, now, commits, l, skipped);
      store.execs := execs;
      store.tasks := store.tasks[lease.task := task.(status := requeued.status)];
      recovered, commits := recovered + 1, commits + [(l, skipped)];
      skipped := {};
      NothingRecovered(store.Rows(), now);
    }
    assert stale[..|stale|] == stale;
    AllRecovered(before, store.tasks, now, stale);
    RecoverableIs(before, now, stale);
    TasksRecovered(before, store.tasks, now, stale);
  }

  lemma TasksRecovered(db: Db, tasks: map<Id, TaskRow>, now: int, stale: seq<Id>)
    requires RecoveredBy(db, tasks, now, stale)
    requires forall l :: l in stale <==> l in db.leases && db.leases[l].expiresAt < now
    ensures tasks.Keys == db.tasks.Keys
    ensures forall t | t in db.tasks ::
              tasks[t] ==
              if && db.tasks[t].status == Running && db.tasks[t].attemptCount < db.tasks[t].maxAttempts
                 && exists l :: l in db.leases && db.leases[l].task == t && db.leases[l].expiresAt < now
              then db.tasks[t].(status := Queued) else db.tasks[t]
  {
    RecoverableIs(db, now, stale);
    forall t | t in db.tasks ensures TakenBy(db, now, t, stale) <==> t in Recoverable(db, now, stale) {
    }
  }

  /** FAILED, RETRYING, QUEUED, one transition after another. */
  method Requeue(task: TaskRow) returns (r: Transitioned)
    ensures r == if task.status == Running then Moved(Queued) else InvalidTransition
  {
    r := Transition(task.status, Failed);
    if r.Moved? {
      r := Transition(r.status, Retrying);
      if r.Moved? {
        r := Transition(r.status, Queued);
      }
    }
  }

  /** The listed leases have been dealt with: their recoverable tasks are queued, all else is unchanged. */
  ghost predicate RecoveredBy(before: Db, tasks: map<Id, TaskRow>, now: int, done: seq<Id>) {
    && tasks.Keys == before.tasks.Keys
    && forall t | t in before.tasks ::
         tasks[t] == if TakenBy(before, now, t, done) then before.tasks[t].(status := Queued) else before.tasks[t]
  }

  ghost predicate TakenBy(before: Db, now: int, t: Id, done: seq<Id>) {
    exists l :: l in done && Recovers(before, now, l) && before.leases[l].task == t
  }

  lemma RecoverNext(before: Db, tasks: map<Id, TaskRow>, now: int, done: seq<Id>, l: Id)
    requires RecoveredBy(before, tasks, now, done) && l in before.leases && before.leases[l].expiresAt < now
    ensures var t := before.leases[l].task;
            if t in tasks && tasks[t].status == Running && tasks[t].attemptCount < tasks[t].maxAttempts
            then RecoveredBy(before, tasks[t := tasks[t].(status := Queued)], now, done + [l])
            else RecoveredBy(before, tasks, now, done + [l])
  {
    var t := before.leases[l].task;
    forall u | u in before.tasks
      ensures TakenBy(before, now, u, done + [l]) <==>
                TakenBy(before, now, u, done) || (u == t && Recovers(before, now, l))
    {
      if u == t && Recovers(before, now, l) {
        assert l in done + [l];
      }
      if TakenBy(before, now, u, done) {
        var k :| k in done && Recovers(before, now, k) && before.leases[k].task == u;
        assert k in done + [l];
      }
    }
  }

  lemma AllRecovered(before: Db, tasks: map<Id, TaskRow>, now: int, stale: seq<Id>)
    requires RecoveredBy(before, tasks, now, stale)
    requires forall l :: l in stale <==> l in before.leases && before.leases[l].expiresAt < now
    ensures forall t | t in before.tasks :: t in tasks && tasks[t].status == RecoveredStatus(before, now, t)
  {
    forall t | t in before.tasks
      ensures TakenBy(before, now, t, stale) <==> exists l :: Recovers(before, now, l) && before.leases[l].task == t
    {
      if l :| Recovers(before, now, l) && before.leases[l].task == t {
        assert l in stale;
      }
    }
  }

  /** In claim order, the first claimable task is the one to take. */
  lemma BestIsFirst(read: Db, tasks: map<Id, TaskRow>, m: Id, skills: set<Capability>, ids: seq<Id>, i: nat)
    requires i < |ids| && InClaimOrder(read.tasks, ids) && m in read.executing
    requires Claimable(read, tasks, m, skills, ids[i])
    requires forall t :: t in ids <==> InMission(read.tasks, m, t)
    requires forall j | 0 <= j < i :: !Claimable(read, tasks, m, skills, ids[j])
    ensures BestLeft(read, tasks, m, skills, ids[i])
  {
    forall u | u in read.tasks && Claimable(read, tasks, m, skills, u)
      ensures NoLater(read.tasks[ids[i]], read.tasks[u])
    {
      assert u in ids;
      var j :| 0 <= j < |ids| && ids[j] == u;
    }
  }
}
