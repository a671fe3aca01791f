/** A scheduling pass, seen as the conditional updates it is made of. */
module Passes {
  import opened Graph
  import opened DagValidator
  import opened Tables
  import opened Scheduler
  import opened Protocol

  /** The updates a pass decides on from the rows it has read; one that keeps the status does nothing. */
  function Updates(db: Db, ids: seq<Id>): seq<Action>
    requires forall t | t in ids :: t in db.tasks
  {
    seq(|ids|, i requires 0 <= i < |ids| =>
          Action.Schedule(ids[i], db.tasks[ids[i]].status, ScheduledStatus(db, ids[i])))
  }

  lemma OneUpdate(before: Db, s: System, done: seq<Id>, t: Id)
    requires s.db == before.(tasks := s.db.tasks) && Passed(before, s.db.tasks, done)
    requires t in before.tasks && t !in done
    ensures var s' := Next(s, Action.Schedule(t, before.tasks[t].status, ScheduledStatus(before, t)));
            s' == s.(db := before.(tasks := s'.db.tasks)) && Passed(before, s'.db.tasks, done + [t])
  {
    PassOne(before, s.db.tasks, done, t);
    NotPassed(before, s.db.tasks, done, t);
    hide Passed;
    UpdateSets(before, s.db, t);
  }

  lemma {:induction false} UpdatesSoFar(s: System, ids: seq<Id>, k: nat)
    requires Distinct(ids) && k <= |ids| && forall t | t in ids :: t in s.db.tasks
    ensures var s' := After(s, Updates(s.db, ids)[..k]);
            s' == s.(db := s.db.(tasks := s'.db.tasks)) && Passed(s.db, s'.db.tasks, ids[..k])
  {
    hide ScheduledStatus, Next;
    var acts := Updates(s.db, ids);
    if k > 0 {
      UpdatesSoFar(s, ids, k - 1);
      ListPrefixes(ids);
      var t := ids[k - 1];
      assert t in ids && ids[k - 1] !in ids[..k - 1];
      OneUpdate(s.db, After(s, acts[..k - 1]), ids[..k - 1], t);
      AfterStep(s, acts, k - 1);
      assert ids[..k] == ids[..k - 1] + [t];
    }
  }

  /** An undisturbed pass is a run of its conditional updates, in whatever order the database lists the tasks. */
  lemma {:induction false} PassIsRun(s: System, m: Id, ids: seq<Id>)
    requires m in s.db.executing && Distinct(ids)
    requires (forall t | t in ids :: t in s.db.tasks) && (forall t :: t in ids <==> InMission(s.db.tasks, m, t))
    ensures After(s, Updates(s.db, ids)) == s.(db := SchedulePass(s.db, m))
  {
    UpdatesSoFar(s, ids, |ids|);
    assert Updates(s.db, ids)[..|ids|] == Updates(s.db, ids) && ids[..|ids|] == ids;
    hide ScheduledStatus, After;
    assert After(s, Updates(s.db, ids)).db.tasks == SchedulePass(s.db, m).tasks;
  }
}
