/** The stored rows as an object updated in place, and the scheduler that works on it. */
module Scheduler {
  import opened Graph
  import opened DagValidator
  import opened Wrappers
  import opened TaskStates
  import opened Tables

  /** The tables behind the unit of work. */
  class Store {
    var executing: set<Id>
    var tasks: map<Id, TaskRow>
    var deps: seq<Dep>
    var execs: map<Id, ExecRow>
    var leases: map<Id, LeaseRow>

    constructor ()
      ensures Rows() == Db({}, map[], [], map[], map[])
    {
      executing, tasks, deps, execs, leases := {}, map[], [], map[], map[];
    }

    ghost function Rows(): Db
      reads this
    {
      Db(executing, tasks, deps, execs, leases)
    }

    /** The rows as a unit of work reads them. */
    method Read() returns (rows: Db)
      ensures rows == Rows()
    {
      return Db(executing, tasks, deps, execs, leases);
    }

    /** Whatever others commit in between. */
    method Replace(rows: Db)
      modifies this
      ensures Rows() == rows
    {
      executing, tasks, deps, execs, leases := rows.executing, rows.tasks, rows.deps, rows.execs, rows.leases;
    }

    /** A conditional status update: it applies only to a row still in the expected status. */
    method TryTransitionStatus(t: Id, from: TaskStatus, to: TaskStatus) returns (moved: bool)
      modifies this`tasks
      ensures moved <==> t in old(tasks) && old(tasks[t].status) == from
      ensures Rows() == if moved then old(Rows()).(tasks := old(tasks)[t := old(tasks[t]).(status := to)])
                        else old(Rows())
    {
      if t !in tasks || tasks[t].status != from {
        return false;
      }
      tasks := tasks[t := tasks[t].(status := to)];
      return true;
    }

    /** tasks.claim_task: a QUEUED row becomes RUNNING and counts one more attempt. */
    method ClaimTask(t: Id, worker: Id) returns (row: Option<TaskRow>)
      modifies this`tasks
      ensures row.Some? <==> t in old(tasks) && old(tasks[t].status) == Queued
      ensures row.None? ==> Rows() == old(Rows())
      ensures row.Some? ==> Rows() == old(Rows()).(tasks := old(tasks)[t := row.value])
      ensures row.Some? ==> row.value == old(tasks[t]).(status := Running, assignedTo := Some(worker),
                                                        attemptCount := old(tasks[t].attemptCount) + 1)
    {
      if t !in tasks || tasks[t].status != Queued {
        return None;
      }
      var claimed := tasks[t].(status := Running);
      claimed := claimed.(assignedTo := Some(worker));
      claimed := claimed.(attemptCount := claimed.attemptCount + 1);
      tasks := tasks[t := claimed];
      return Some(claimed);
    }

    /** task_executions.update */
    method UpdateExecution(e: Id, status: ExecStatus)
      modifies this`execs
      ensures Rows() == if e in old(execs)
                        then old(Rows()).(execs := old(execs)[e := old(execs[e]).(status := status)])
                        else old(Rows())
    {
      if e in execs {
        execs := execs[e := execs[e].(status := status)];
      }
    }
  }

  /** tasks.get_by_mission: the mission's tasks among those read, in whatever order the database gives them. */
  method TasksOfMission(tasks: map<Id, TaskRow>, m: Id) returns (ids: seq<Id>)
    ensures Distinct(ids) && forall t :: t in ids <==> t in tasks && tasks[t].mission == m
  {
    ids := [];
    var rest := tasks.Keys;
    while rest != {}
      invariant rest <= tasks.Keys && Distinct(ids)
      invariant forall t :: t in ids <==> InMission(tasks, m, t) && t !in rest
      decreases rest
    {
      var t :| t in rest;
      rest := rest - {t};
      if tasks[t].mission == m {
        ids := ids + [t];
      }
    }
  }

  /** The scan over a task's dependencies, with its two flags. */
  method ScanParents(parents: seq<Id>, snapshot: map<Id, TaskRow>, m: Id)
    returns (blocked: bool, allSucceeded: bool)
    ensures blocked <==> Scan(parents, snapshot, m) == Obstructed
    ensures !blocked ==> (allSucceeded <==> Scan(parents, snapshot, m) == AllSucceeded)
  {
    blocked, allSucceeded := false, true;
    for i := 0 to |parents|
      invariant !blocked && allSucceeded
      invariant Scan(parents[i..], snapshot, m) == Scan(parents, snapshot, m)
    {
      var p := parents[i];
      assert parents[i..][0] == p && parents[i..][1..] == parents[i + 1..];
      if p !in snapshot || snapshot[p].mission != m {
        blocked := true;
        break;
      }
      if snapshot[p].status in {Failed, Cancelled} {
        blocked := true;
        break;
      }
      if snapshot[p].status != Succeeded {
        allSucceeded := false;
        break;
      }
    }
  }

  /** The body of the pass for one task: decided on the rows read, applied to the rows as they are now. */
  method ScheduleOne(store: Store, read: Db, t: Id, m: Id) returns (queued: bool)
    requires InMission(read.tasks, m, t)
    modifies store`tasks
    ensures store.Rows() == ScheduleRows(old(store.Rows()), t, read.tasks[t].status, ScheduledStatus(read, t))
    ensures queued <==> Queues(read, old(store.Rows()), t)
    ensures queued <==>
              && read.tasks[t].status in {Pending, Blocked}
              && t in old(store.tasks) && old(store.tasks)[t].status == read.tasks[t].status
              && forall p | Dep(t, p) in read.deps :: Done(read.tasks, m, p)
    ensures store.tasks ==
            if && read.tasks[t].status in {Pending, Blocked}
               && t in old(store.tasks) && old(store.tasks)[t].status == read.tasks[t].status
            then if forall p | Dep(t, p) in read.deps :: Done(read.tasks, m, p)
                 then old(store.tasks)[t := old(store.tasks)[t].(status := Queued)]
                 else if exists i :: 0 <= i < |read.deps| && FirstOpenIsBad(read.deps, read.tasks, m, t, i)
                 then old(store.tasks)[t := old(store.tasks)[t].(status := Blocked)]
                 else old(store.tasks)
            else old(store.tasks)
  {
    hide Parents, MissionDeps, Done, FirstOpenIsBad;
    queued := false;
    var status := read.tasks[t].status;
    if status == Pending || status == Blocked {
      ParentsOfSlice(read.deps, read.tasks, m, t);
      var deps := MissionDeps(read.deps, read.tasks, m);
      var blocked, allSucceeded := ScanParents(Parents(deps, t), read.tasks, m);
      if blocked {
        if status != Blocked {
          var moved := store.TryTransitionStatus(t, status, Blocked);
        }
      } else if allSucceeded {
        var moved := store.TryTransitionStatus(t, status, Ready);
        if moved {
          queued := store.TryTransitionStatus(t, Ready, Queued);
        }
      }
    }
    hide Scan;
    assert store.Rows() == ScheduleRows(old(store.Rows()), t, status, ScheduledStatus(read, t));
    assert queued <==> Queues(read, old(store.Rows()), t);
    hide *;
    UpdateSays(read, old(store.Rows()), t, m);
  }

  /** What one update does, in terms of the stored dependencies and the statuses of the tasks they name. */
  lemma UpdateSays(read: Db, now: Db, t: Id, m: Id)
    requires InMission(read.tasks, m, t)
    ensures Queues(read, now, t) <==>
              && read.tasks[t].status in {Pending, Blocked}
              && t in now.tasks && now.tasks[t].status == read.tasks[t].status
              && forall p | Dep(t, p) in read.deps :: Done(read.tasks, m, p)
    ensures ScheduleRows(now, t, read.tasks[t].status, ScheduledStatus(read, t)).tasks ==
            if && read.tasks[t].status in {Pending, Blocked}
               && t in now.tasks && now.tasks[t].status == read.tasks[t].status
            then if forall p | Dep(t, p) in read.deps :: Done(read.tasks, m, p)
                 then now.tasks[t := now.tasks[t].(status := Queued)]
                 else if exists i :: 0 <= i < |read.deps| && FirstOpenIsBad(read.deps, read.tasks, m, t, i)
                 then now.tasks[t := now.tasks[t].(status := Blocked)]
                 else now.tasks
            else now.tasks
  {
    ScanSays(read.deps, read.tasks, m, t);
    hide Scan, Parents, Done, FirstOpenIsBad;
  }

  /** The update for t finds the row as it was read, and queues it. */
  predicate Queues(read: Db, now: Db, t: Id)
    requires t in read.tasks
  {
    && t in now.tasks && now.tasks[t].status == read.tasks[t].status && read.tasks[t].status in {Pending, Blocked}
    && ScheduledStatus(read, t) == Queued
  }

  /** What other sessions make of the rows just before the k-th update of a pass. */
  type Others = (nat, Db) -> Db

  /** The rows after k updates of a pass that was decided on `read`, with others committing in between. */
  ghost function Disturbed(read: Db, ids: seq<Id>, others: Others, rows: Db, k: nat): Db
    requires k <= |ids| && forall t | t in ids :: t in read.tasks
  {
    if k == 0 then rows
    else
      var t := ids[k - 1];
      ScheduleRows(others(k - 1, Disturbed(read, ids, others, rows, k - 1)), t, read.tasks[t].status,
                   ScheduledStatus(read, t))
  }

  /** The tasks that the first k updates of the pass queue. */
  ghost function ReadyOf(read: Db, ids: seq<Id>, others: Others, rows: Db, k: nat): seq<Id>
    requires k <= |ids| && forall t | t in ids :: t in read.tasks
  {
    if k == 0 then []
    else
      ReadyOf(read, ids, others, rows, k - 1)
      + if Queues(read, others(k - 1, Disturbed(read, ids, others, rows, k - 1)), ids[k - 1]) then [ids[k - 1]] else []
  }

  /** The pass has dealt with the listed tasks. */
  ghost predicate Passed(before: Db, now: map<Id, TaskRow>, done: seq<Id>) {
    && now.Keys == before.tasks.Keys
    && forall t | t in before.tasks ::
         now[t] == if t in done then before.tasks[t].(status := ScheduledStatus(before, t)) else before.tasks[t]
  }

  lemma PassOne(before: Db, now: map<Id, TaskRow>, done: seq<Id>, t: Id)
    requires Passed(before, now, done) && t in before.tasks && t !in done
    ensures Passed(before, now[t := now[t].(status := ScheduledStatus(before, t))], done + [t])
  {
    assert forall u :: u in done + [t] <==> u in done || u == t;
    hide ScheduledStatus;
  }

  /**
   TaskScheduler.schedule_ready_tasks, decided on the rows it has read, while others commit before each of its
   updates: returns the tasks it has put in the queue, and the order in which the database listed them all.
   */
  method ScheduleReadyTasks(store: Store, m: Id, read: Db, others: Others) returns (ready: seq<Id>, ids: seq<Id>)
    modifies store
    ensures Distinct(ids) && forall t | t in ids :: t in read.tasks
    ensures forall t :: t in ids <==> m in read.executing && InMission(read.tasks, m, t)
    ensures store.Rows() == Disturbed(read, ids, others, old(store.Rows()), |ids|)
    ensures ready == ReadyOf(read, ids, others, old(store.Rows()), |ids|)
  {
    ready, ids := [], [];
    if m !in read.executing {
      return;
    }
    ghost var rows := store.Rows();
    ids := TasksOfMission(read.tasks, m);
    for i := 0 to |ids|
      invariant store.Rows() == Disturbed(read, ids, others, rows, i)
      invariant ready == ReadyOf(read, ids, others, rows, i)
    {
      assert ids[i] in ids;
      hide ScheduleRows, ScheduledStatus, Queues;
      var now := store.Read();
      store.Replace(others(i, now));
      var queued := ScheduleOne(store, read, ids[i], m);
      ready := ready + if queued then [ids[i]] else [];
    }
  }

  function Nobody(k: nat, db: Db): Db {
    db
  }

  lemma {:induction false} UndisturbedSoFar(read: Db, ids: seq<Id>, k: nat)
    requires Distinct(ids) && k <= |ids| && forall t | t in ids :: t in read.tasks
    ensures var now := Disturbed(read, ids, Nobody, read, k);
            now == read.(tasks := now.tasks) && Passed(read, now.tasks, ids[..k])
  {
    hide ScheduledStatus, ScheduleRows, Passed;
    if k == 0 {
      NonePassed(read);
      assert ids[..0] == [];
    } else {
      UndisturbedSoFar(read, ids, k - 1);
      UndisturbedStep(read, Disturbed(read, ids, Nobody, read, k - 1), ids, k - 1);
    }
  }

  lemma NonePassed(read: Db)
    ensures Passed(read, read.tasks, [])
  {
  }

  lemma UndisturbedStep(read: Db, now: Db, ids: seq<Id>, k: nat)
    requires Distinct(ids) && k < |ids| && ids[k] in read.tasks
    requires now == read.(tasks := now.tasks) && Passed(read, now.tasks, ids[..k])
    ensures var after := ScheduleRows(now, ids[k], read.tasks[ids[k]].status, ScheduledStatus(read, ids[k]));
            after == read.(tasks := after.tasks) && Passed(read, after.tasks, ids[..k + 1])
    ensures ids[k] in now.tasks && now.tasks[ids[k]] == read.tasks[ids[k]]
  {
    hide ScheduledStatus, ScheduleRows, Passed;
    ListPrefixes(ids);
    NotPassed(read, now.tasks, ids[..k], ids[k]);
    PassOne(read, now.tasks, ids[..k], ids[k]);
    UpdateSets(read, now, ids[k]);
  }

  lemma UpdateSets(read: Db, now: Db, t: Id)
    requires t in read.tasks && t in now.tasks && now.tasks[t] == read.tasks[t]
    ensures ScheduleRows(now, t, read.tasks[t].status, ScheduledStatus(read, t))
            == now.(tasks := now.tasks[t := now.tasks[t].(status := ScheduledStatus(read, t))])
  {
    var to := ScheduledStatus(read, t);
    assert to == read.tasks[t].status || MayReschedule(read.tasks[t].status, to);
    hide ScheduledStatus;
  }

  lemma PassedAllIsPass(read: Db, m: Id, now: Db, ids: seq<Id>)
    requires now == read.(tasks := now.tasks) && Passed(read, now.tasks, ids)
    requires forall t :: t in ids <==> m in read.executing && InMission(read.tasks, m, t)
    ensures now == SchedulePass(read, m)
  {
    hide ScheduledStatus;
    assert now.tasks == SchedulePass(read, m).tasks;
  }

  /** When nobody disturbs it, a pass does what the specification of a pass says, in whatever order. */
  lemma {:induction false} UndisturbedIsPass(read: Db, m: Id, ids: seq<Id>)
    requires Distinct(ids) && forall t | t in ids :: t in read.tasks
    requires forall t :: t in ids <==> m in read.executing && InMission(read.tasks, m, t)
    ensures Disturbed(read, ids, Nobody, read, |ids|) == SchedulePass(read, m)
  {
    hide Disturbed, Passed, SchedulePass;
    UndisturbedSoFar(read, ids, |ids|);
    assert ids[..|ids|] == ids;
    PassedAllIsPass(read, m, Disturbed(read, ids, Nobody, read, |ids|), ids);
  }

  /** The pass as read moves t into the queue. */
  predicate Readies(read: Db, t: Id) {
    t in read.tasks && read.tasks[t].status != Queued && ScheduledStatus(read, t) == Queued
  }

  /** ... and returns exactly the tasks that became QUEUED. */
  lemma {:induction false} UndisturbedReady(read: Db, ids: seq<Id>, k: nat)
    requires Distinct(ids) && k <= |ids| && forall t | t in ids :: t in read.tasks
    ensures forall t :: t in ReadyOf(read, ids, Nobody, read, k) <==> t in ids[..k] && Readies(read, t)
  {
    if k > 0 {
      hide Readies, Passed, Distinct, Disturbed, ScheduledStatus;
      UndisturbedReady(read, ids, k - 1);
      assert ids[..k] == ids[..k - 1] + [ids[k - 1]];
      LastReady(read, ids, k - 1);
    }
  }

  lemma LastReady(read: Db, ids: seq<Id>, k: nat)
    requires Distinct(ids) && k < |ids| && forall t | t in ids :: t in read.tasks
    ensures ReadyOf(read, ids, Nobody, read, k + 1) ==
            ReadyOf(read, ids, Nobody, read, k) + if Readies(read, ids[k]) then [ids[k]] else []
  {
    var now := Disturbed(read, ids, Nobody, read, k);
    assert ids[k] in ids;
    UndisturbedSoFar(read, ids, k);
    UndisturbedStep(read, now, ids, k);
    QueuesAsRead(read, now, ids[k]);
    hide Queues, Readies, Passed, Disturbed, Distinct;
  }

  lemma QueuesAsRead(read: Db, now: Db, t: Id)
    requires t in read.tasks && t in now.tasks && now.tasks[t] == read.tasks[t]
    ensures Queues(read, now, t) <==> Readies(read, t)
  {
  }

  /** A pass queues each task at most once, and only tasks it has listed. */
  lemma {:induction false} ReadyOnce(read: Db, ids: seq<Id>, others: Others, rows: Db, k: nat)
    requires Distinct(ids) && k <= |ids| && forall t | t in ids :: t in read.tasks
    ensures Distinct(ReadyOf(read, ids, others, rows, k))
    ensures forall t | t in ReadyOf(read, ids, others, rows, k) :: t in ids[..k]
  {
    hide Queues, Disturbed;
    if k > 0 {
      ReadyOnce(read, ids, others, rows, k - 1);
      ListPrefixes(ids);
      assert ids[..k] == ids[..k - 1] + [ids[k - 1]] && ids[k - 1] !in ids[..k - 1];
    }
  }

  lemma NotPassed(before: Db, now: map<Id, TaskRow>, done: seq<Id>, t: Id)
    requires Passed(before, now, done) && t in before.tasks && t !in done
    ensures t in now && now[t] == before.tasks[t]
  {
  }

  lemma ListPrefixes(ids: seq<Id>)
    requires Distinct(ids)
    ensures forall i | 0 <= i < |ids| :: ids[i] !in ids[..i] && ids[..i + 1] == ids[..i] + [ids[i]]
  {
  }

  /** The i-th stored dependency is t's first on a task that has not succeeded in the mission. */
  ghost predicate FirstOpen(deps: seq<Dep>, tasks: map<Id, TaskRow>, m: Id, t: Id, i: nat)
    requires i < |deps|
  {
    && deps[i].task == t
    && !Done(tasks, m, deps[i].dependsOn)
    && forall j | 0 <= j < i && deps[j].task == t :: Done(tasks, m, deps[j].dependsOn)
  }

  ghost predicate Done(tasks: map<Id, TaskRow>, m: Id, p: Id) {
    p in tasks && tasks[p].mission == m && tasks[p].status == Succeeded
  }

  /** ... and that task is missing from the mission, FAILED or CANCELLED. */
  ghost predicate FirstOpenIsBad(deps: seq<Dep>, tasks: map<Id, TaskRow>, m: Id, t: Id, i: nat)
    requires i < |deps|
  {
    && FirstOpen(deps, tasks, m, t, i)
    && var p := deps[i].dependsOn;
       p !in tasks || tasks[p].mission != m || tasks[p].status in {Failed, Cancelled}
  }

  lemma FirstOpenShift(deps: seq<Dep>, tasks: map<Id, TaskRow>, m: Id, t: Id, i: nat)
    requires 0 < i < |deps| && (deps[0].task == t ==> Done(tasks, m, deps[0].dependsOn))
    ensures FirstOpen(deps, tasks, m, t, i) <==> FirstOpen(deps[1..], tasks, m, t, i - 1)
    ensures FirstOpenIsBad(deps, tasks, m, t, i) <==> FirstOpenIsBad(deps[1..], tasks, m, t, i - 1)
  {
    hide Done;
    assert deps[i] == deps[1..][i - 1];
    if FirstOpen(deps, tasks, m, t, i) {
      forall j | 0 <= j < i - 1 && deps[1..][j].task == t ensures Done(tasks, m, deps[1..][j].dependsOn) {
        assert deps[1..][j] == deps[j + 1];
      }
    }
    if FirstOpen(deps[1..], tasks, m, t, i - 1) {
      forall j | 0 <= j < i && deps[j].task == t ensures Done(tasks, m, deps[j].dependsOn) {
        if j > 0 { assert deps[j] == deps[1..][j - 1]; }
      }
    }
  }

  /** What the scan says, in terms of the stored dependencies and the statuses of the tasks they name. */
  lemma {:induction false} ScanSays(deps: seq<Dep>, tasks: map<Id, TaskRow>, m: Id, t: Id)
    ensures Scan(Parents(deps, t), tasks, m) == Obstructed <==>
              exists i :: 0 <= i < |deps| && FirstOpenIsBad(deps, tasks, m, t, i)
    ensures Scan(Parents(deps, t), tasks, m) == AllSucceeded <==>
              forall p | Dep(t, p) in deps :: Done(tasks, m, p)
  {
    if deps != [] {
      var rest := deps[1..];
      ScanSays(rest, tasks, m, t);
      ScanFirst(deps, tasks, m, t);
      hide Scan, Done, FirstOpen;
      assert deps == [deps[0]] + rest;
      if deps[0].task == t && !Done(tasks, m, deps[0].dependsOn) {
        assert deps[0] == Dep(t, deps[0].dependsOn);
        OnlyFirst(deps, tasks, m, t);
      } else {
        forall i | 0 < i < |deps|
          ensures FirstOpenIsBad(deps, tasks, m, t, i) <==> FirstOpenIsBad(rest, tasks, m, t, i - 1)
        {
          FirstOpenShift(deps, tasks, m, t, i);
        }
        NotFirst(deps, tasks, m, t);
        ShiftedExists(deps, tasks, m, t);
      }
    }
  }

  lemma ShiftedExists(deps: seq<Dep>, tasks: map<Id, TaskRow>, m: Id, t: Id)
    requires deps != [] && !FirstOpenIsBad(deps, tasks, m, t, 0)
    requires forall i | 0 < i < |deps| ::
               FirstOpenIsBad(deps, tasks, m, t, i) <==> FirstOpenIsBad(deps[1..], tasks, m, t, i - 1)
    ensures (exists i :: 0 <= i < |deps| && FirstOpenIsBad(deps, tasks, m, t, i)) <==>
            exists i :: 0 <= i < |deps[1..]| && FirstOpenIsBad(deps[1..], tasks, m, t, i)
  {
    hide FirstOpenIsBad;
    if i :| 0 <= i < |deps[1..]| && FirstOpenIsBad(deps[1..], tasks, m, t, i) {
      assert FirstOpenIsBad(deps, tasks, m, t, i + 1) <==> FirstOpenIsBad(deps[1..], tasks, m, t, i + 1 - 1);
    }
  }

  lemma NotFirst(deps: seq<Dep>, tasks: map<Id, TaskRow>, m: Id, t: Id)
    requires deps != [] && (deps[0].task == t ==> Done(tasks, m, deps[0].dependsOn))
    ensures !FirstOpenIsBad(deps, tasks, m, t, 0)
  {
  }

  lemma OnlyFirst(deps: seq<Dep>, tasks: map<Id, TaskRow>, m: Id, t: Id)
    requires deps != [] && deps[0].task == t && !Done(tasks, m, deps[0].dependsOn)
    ensures forall i | 0 < i < |deps| :: !FirstOpenIsBad(deps, tasks, m, t, i)
    ensures var p := deps[0].dependsOn;
            FirstOpenIsBad(deps, tasks, m, t, 0) <==>
              p !in tasks || tasks[p].mission != m || tasks[p].status in {Failed, Cancelled}
  {
  }

  lemma ScanFirst(deps: seq<Dep>, tasks: map<Id, TaskRow>, m: Id, t: Id)
    requires deps != []
    ensures var p := deps[0].dependsOn;
            Scan(Parents(deps, t), tasks, m) ==
            if deps[0].task != t || Done(tasks, m, p) then Scan(Parents(deps[1..], t), tasks, m)
            else if p !in tasks || tasks[p].mission != m || tasks[p].status in {Failed, Cancelled} then Obstructed
            else Waiting
  {
    if deps[0].task == t {
      assert Parents(deps, t)[1..] == Parents(deps[1..], t);
    }
  }

  /**
   A pass blocks exactly the PENDING tasks whose first parent, in stored order, that has not SUCCEEDED is missing
   from the mission, FAILED or CANCELLED.  A BLOCKED task stays so unless it is queued, and no other status changes.
   */
  lemma {:induction false} BlockedIff(db: Db, m: Id, t: Id)
    requires m in db.executing && t in db.tasks && db.tasks[t].mission == m
    ensures t in SchedulePass(db, m).tasks
    ensures var before, after := db.tasks[t].status, SchedulePass(db, m).tasks[t].status;
            && (before == Pending ==>
                  && after in {Pending, Blocked, Queued}
                  && (after == Blocked <==>
                        exists i :: 0 <= i < |db.deps| && FirstOpen(db.deps, db.tasks, m, t, i)
                                    && var p := db.deps[i].dependsOn;
                                       || p !in db.tasks || db.tasks[p].mission != m
                                       || db.tasks[p].status == Failed || db.tasks[p].status == Cancelled))
            && (before == Blocked ==> after in {Blocked, Queued})
            && (before !in {Pending, Blocked} ==> after == before)
  {
    ScanSays(db.deps, db.tasks, m, t);
    hide Scan, FirstOpen;
    assert forall i | 0 <= i < |db.deps| && FirstOpen(db.deps, db.tasks, m, t, i) ::
        FirstOpenIsBad(db.deps, db.tasks, m, t, i) <==>
          var p := db.deps[i].dependsOn;
          p !in db.tasks || db.tasks[p].mission != m || db.tasks[p].status in {Failed, Cancelled};
  }

  /** ... and a pass changes nothing but these statuses. */
  lemma PassChangesStatuses(db: Db, m: Id)
    ensures var after := SchedulePass(db, m);
            && after == db.(tasks := after.tasks) && after.tasks.Keys == db.tasks.Keys
            && forall t | t in db.tasks ::
                 && after.tasks[t] == db.tasks[t].(status := after.tasks[t].status)
                 && (m !in db.executing || db.tasks[t].mission != m ==> after.tasks[t] == db.tasks[t])
  {
  }

  /** Blocking a task always has a failed, cancelled or missing parent behind it. */
  lemma BlockedHasBadParent(db: Db, m: Id, t: Id)
    requires t in db.tasks && db.tasks[t].status != Blocked
    requires t in SchedulePass(db, m).tasks && SchedulePass(db, m).tasks[t].status == Blocked
    ensures exists p :: Dep(t, p) in db.deps
                        && (p !in db.tasks || db.tasks[p].mission != m || db.tasks[p].status in {Failed, Cancelled})
  {
    var parents := Parents(db.deps, t);
    var i :| 0 <= i < |parents| && Settles(i, Obstructed, parents, db.tasks, m);
    assert parents[i] in parents;
  }

  /** A pass queues exactly the waiting tasks all of whose parents are present and have succeeded. */
  lemma QueuedIff(db: Db, m: Id, t: Id)
    requires m in db.executing && InMission(db.tasks, m, t) && db.tasks[t].status != Queued
    ensures t in SchedulePass(db, m).tasks
    ensures SchedulePass(db, m).tasks[t].status == Queued <==>
              && db.tasks[t].status in {Pending, Blocked}
              && forall p | Dep(t, p) in db.deps ::
                   p in db.tasks && db.tasks[p].mission == m && db.tasks[p].status == Succeeded
  {
    var parents := Parents(db.deps, t);
    if !(forall p | p in parents :: HasSucceeded(db.tasks, m, p)) {
      var r := Scan(parents, db.tasks, m);
      var i :| 0 <= i < |parents| && Settles(i, r, parents, db.tasks, m);
      assert Dep(t, parents[i]) in db.deps by { assert parents[i] in parents; }
    }
  }
}
