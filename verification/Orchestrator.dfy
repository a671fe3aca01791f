/** Adding tasks and dependencies to the stored graph. */
module Orchestrator {
  import opened DagValidator
  import opened Wrappers
  import opened TaskStates
  import opened Tables
  import opened Scheduler
  import opened Protocol

  datatype AddResult = Added | UnknownTask | OtherMission | Refused(verdict: Verdict)

  /** add_task, for a task as the API builds it: pending, with no attempt made; a repeated id is refused. */
  method AddTask(store: Store, t: Id, m: Id, kind: TaskType, priority: int, createdAt: int, maxAttempts: int)
    returns (added: bool)
    modifies store`tasks
    ensures added <==> t !in old(store.tasks)
    ensures store.tasks ==
            if added then old(store.tasks)[t := TaskRow(m, kind, priority, createdAt, Pending, 0, maxAttempts, None)]
            else old(store.tasks)
    ensures forall now, ttl, open ::
              System(store.Rows(), now, ttl, open)
              == AddTaskStep(System(old(store.Rows()), now, ttl, open), t, m, kind, priority, createdAt, maxAttempts)
  {
    added := t !in store.tasks;
    if !added {
      return;
    }
    store.tasks := store.tasks[t := TaskRow(m, kind, priority, createdAt, Pending, 0, maxAttempts, None)];
  }

  /**
   add_dependency: stored exactly when both tasks lie in the mission and the edge is no
   self-loop, no duplicate and closes no cycle among the mission's own dependencies.
   */
  method AddDependency(store: Store, m: Id, dep: Dep) returns (r: AddResult)
    modifies store`deps
    ensures r.Added? <==> MayAdd(old(store.Rows()), m, dep)
    ensures r.Added? ==>
              && dep.task in store.tasks && store.tasks[dep.task].mission == m
              && dep.dependsOn in store.tasks && store.tasks[dep.dependsOn].mission == m
              && dep !in old(store.deps) && dep.task != dep.dependsOn
    ensures store.Rows() == if r.Added? then old(store.Rows()).(deps := old(store.deps) + [dep]) else old(store.Rows())
    ensures r.UnknownTask? <==> dep.task !in store.tasks || dep.dependsOn !in store.tasks
    ensures r.OtherMission? <==>
              && dep.task in store.tasks && dep.dependsOn in store.tasks
              && !(InMission(store.tasks, m, dep.task) && InMission(store.tasks, m, dep.dependsOn))
    ensures r.Refused? ==> Decides(r.verdict, dep, MissionDeps(old(store.deps), store.tasks, m)) && !r.verdict.Accepted?
  {
    if dep.task !in store.tasks || dep.dependsOn !in store.tasks {
      return UnknownTask;
    }
    if store.tasks[dep.task].mission != m || store.tasks[dep.dependsOn].mission != m {
      return OtherMission;
    }
    var v := ValidateNewDependency(dep, MissionDeps(store.deps, store.tasks, m));
    if !v.Accepted? {
      return Refused(v);
    }
    store.deps := store.deps + [dep];
    return Added;
  }
}
