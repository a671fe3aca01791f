# AURA: tasks, leases, agents and missions, verified

AURA breaks an engineering mission into tasks with dependencies, lets a planner propose them, queues
the ones that are ready, and has workers claim them under leases, run an agent on them and verify the
result. This project models that machinery in Dafny and proves what holds over every run of it.

## What is modelled

**The task graph.** `DagValidator` is the depth-first search with its `visited` and `rec_stack` sets;
`Planner` turns titled tasks into dependencies and validates them one by one; `Orchestrator` adds a
dependency to the stored graph. `Graph` holds the facts about walks, cycles and post-orders they rest on.

**The shared tables.** `Tables` says what each committed unit of work does to the task, dependency,
execution and lease rows. `Scheduler` and `Coordinator` are the imperative code over a mutable `Store`:
the scheduling pass, claiming, heartbeats, completion, failure with retry, and recovery. Each method is
proved equal to its row function. `Execution` is one worker's poll from claim to end; it and `Passes` prove
that an undisturbed poll, and an undisturbed scheduling pass, are exactly runs of the protocol below.

**The protocol.** `Protocol` is the state machine of the shared tables: any number of schedulers, workers
and API calls interleave, one committed unit of work at a time, under a clock that never goes back. A
worker that has claimed a task has an open session, whose phase is its position in `execute_claimed`. An
agent runtime is a black box that may write SUCCEEDED, FAILED or nothing. A scheduler acts by single
conditional updates, each at any time after the rows it was decided from were read, so that passes interleave
with everything else. A run is any sequence of actions from empty tables. The results over all runs are in
`Invariants`, `Exclusivity`, `Hazards`, `Succession`, `Stranding`, `Lifecycle`, `DependencyOrder`,
`LeaseTiming` and `Completion`; `BoundsAttained` shows that the bounds in `Lifecycle` are sharp, `Rounds` counts
scheduling rounds and `RoundRuns` makes runs of them, and `HazardRuns` holds concrete runs in which a documented
promise fails.

**The agents' run loop.** `AgentLoop` has the four counters, the run state machine and the verdict written
on the task, for the coding agent (with or without a verification engine) and for its plainer sibling. A
script supplies what the clock, the LLM, the tools and the verification engine answer in each pass, so a
statement about all scripts is a statement about all behaviours of the outside world.

**Context.** `ContextBudget` filters, de-duplicates, ranks and cuts search results to a token budget;
`ContextCache` is the service in front of it with its cache.

**Missions and plans.** `MissionLog` is the mission service: statuses, approvals and the event log.
`PlanStore` is the planner's bookkeeping of stored plans.

## Where the code does less than it promises

The model follows the code. For each gap there is a run that shows it and, where the property holds under
a condition, the exact condition.

- Single ownership (`.opencode/context/decisions.md:12-13`, `.opencode/context/architecture.md:123`).
  `recover_stale` looks at every expired lease, also at the old lease of an attempt that has long been
  retried, and requeues a task under its present holder's live lease. `_fail_task` makes no ownership
  check, so a worker whose task was recovered requeues its successor's task. `Hazards.ExclusivityKeptIff`
  says that these two are the only ways to lose single ownership; without recovery, which `run_forever`
  never calls, it always holds (`Exclusivity.LeaseExclusivity`).
- "Stale worker cannot complete" (`.opencode/context/architecture.md:124`). The last ownership check and
  the commit of `_complete_task` are separate units of work, and the agent's own write asks for no lease at
  all. `HazardRuns.StaleWorkerCompletes` and `HazardRuns.StaleAgentWrites` are runs in which they end the
  successor's attempt. A completion that goes through is its owner's exactly when the lease was not closed and
  less than the time to live has passed since its last beat (`Succession.CompletionIsOwnersIff`); a write by a
  worker or its agent lands on somebody else's attempt exactly when the task has been claimed again since
  (`Succession.WritesOnSuccessorIff`).
- "Lease expiry = recovery" (`.opencode/context/architecture.md:125`). A RUNNING task whose workers are gone,
  crashed wherever in their sessions, moves again in some continuation exactly when it has attempts left
  (`Stranding.MovesAgainIff`); after its last attempt it stays RUNNING for ever, whether its worker crashed
  (`HazardRuns.CrashIsNeverRecovered`) or stopped at an ownership check (`HazardRuns.ExpiredIsNeverRecovered`).
- "SUCCEEDED: TaskExecution SUCCEEDED, Task SUCCEEDED" (`.opencode/context/architecture.md:92`). The agent
  writes the task's final status first, so the coordinator's own transition is refused: without recovery,
  completion goes through exactly when the agent wrote nothing (`Completion.CompletesIff`), and otherwise a verified
  success ends with its execution marked FAILED (`Completion.VerifiedSuccessEndsFailed`, and as a run
  `HazardRuns.VerifiedSuccessIsMarkedFailed`).
- Attempts. With `max_attempts` of 0 or less a task is still queued and claimed once, because only a retry
  looks at the limit (`HazardRuns.ClaimedBeyondLimit`; `Lifecycle.AttemptAccounting` has the exact condition).
- A run that times out, or has a limit that is not positive, before its first pass stays READY for ever,
  because READY may not become FAILED; its task is marked failed all the same (`AgentLoop.OutcomeIff`).
- The recorded status is meant to tell what happens (`core/application/coding_agent.py:427-432`). After a failed
  verification the run never returns to RUNNING, so the agent's further tool calls are recorded as VERIFYING:
  a tool call is recorded so exactly when a verification came before it (`AgentLoop.RecoveryStaysVerifying`).
  `AgentLoop.ToolWhileVerifying` is such a run, and an agent has none exactly when it has no engine, no recovery
  or no tool call to spare (`AgentLoop.ToolsAlwaysRunningIff`).
- The time-to-live of a cache entry is tested on two clock readings of one and the same call. A stored entry
  answers exactly when these are less than 300 seconds apart, however old it is (`ContextCache.EntryAnswersIff`,
  `ContextCache.EntriesNeverExpire`).
- The cache key leaves out the token budget. After any queries, the next answer fits its budget whatever the
  searches return exactly when the query behind the cached entry asked for no more
  (`ContextCache.CachedAnswerFitsIff`). The parts of the key are joined without escaping, so queries that differ
  otherwise can share it too (`ContextCache.KeysCollide`).
- A penalty of 0.8 on the score of a cut context raises it when the score is negative: bundles always come
  back ranked exactly when the relevance threshold is not negative (`ContextBudget.AlwaysRankedIff`).
- Rejecting an approval while the mission is PLANNED tries to move it to BLOCKED, which the table forbids;
  the exception rolls the rejection back (`MissionLog.RejectionIsUndone`, exact in
  `MissionLog.ResolutionRecordedIff`).
- Protected statuses (`docs/architecture/security-model.md:10`) can be set outright by `update_mission_status`.
  They are entered only right after an approval of the right kind exactly when that never happens
  (`MissionLog.ProtectedStatusesAreGated`).
- "A mission can only have one active plan" (`docs/architecture/planner-agent.md`) holds for calls made one
  after another; overlapping calls leave several, and an approved plan is not superseded
  (`PlanStore.ActiveAreStoredSince`, `PlanStore.ApprovedPlansStand`).

## Model

| member | source | states |
|---|---|---|
| DagValidator.ValidateNewDependency | core/domain/dag/validator.py:20-63 | Accepts if and only if the dependency is no self-loop, is not stored already, and the stored edges with it have no directed cycle; otherwise the error is the first of these that applies. |
| DagValidator.CycleSearch.IsCyclic | core/domain/dag/validator.py:46-58 | The recursive search: finds a cycle that really exists, or leaves every node it entered finished and off the stack, with the unvisited nodes decreasing. |
| DagValidator.FinishedMeansAcyclic | core/domain/dag/validator.py:60-63 | Starting only from nodes with outgoing edges loses no cycle: if all of them are finished, the graph has none. |
| Graph.PostOrderMeansAcyclic | core/domain/dag/validator.py:46-58 | An order in which every edge ends before it starts, which is what the search builds, rules out every cycle. |
| Planner.CheckPlan | core/application/planner_agent.py:96-120 | The plan is accepted iff every dependency title is declared and the graph over titles is acyclic; otherwise says which error comes out. |
| Planner.ValidateEach | core/application/planner_agent.py:116-120 | The loop that tests each dependency against all the others accepts iff the whole graph is acyclic, and a failure is decided in its first round. |
| Planner.SameEdges | core/application/planner_agent.py:116-120 | Every round of that loop tests one and the same edge set. |
| Planner.NamedCycles | core/application/planner_agent.py:103-114 | The assigned ids are only new names for titles: the dependency graph has a cycle iff the title graph has one. |
| Orchestrator.AddDependency | core/application/mission_orchestrator.py:27-46 | Stores the dependency iff both tasks exist in the mission and the mission's own slice of the graph stays sound; otherwise nothing changes. |
| Orchestrator.AddTask | core/application/mission_orchestrator.py:15-25 | Adds one PENDING task with no attempts and leaves every other row alone; a repeated id changes nothing. |
| DependencyOrder.StoredDependenciesStayAcyclic | core/application/mission_orchestrator.py:27-46 | In every run the stored graph over all missions is acyclic, although each call looks at one mission's slice. |
| Invariants.CycleInSlice | core/infrastructure/database/repositories.py:368-383 | A cycle closed by a new dependency inside a mission already lies in that mission's slice, so checking the slice is enough. |
| Tables.Scan | core/application/task_scheduler.py:38-52 | What the dependency scan concludes is settled by the first dependency that has not succeeded: obstructed if it is missing, failed or cancelled, waiting otherwise. |
| Tables.ParentsOfSlice | core/infrastructure/database/repositories.py:368-383 | For a task of the mission, the slice of dependencies loaded for the mission loses none of its parents. |
| Scheduler.ScheduleReadyTasks | core/application/task_scheduler.py:16-107 | Decided on the rows it read, with any commits of others before each of its updates, the pass makes exactly the specified conditional updates, and returns exactly the tasks that its own updates queued. |
| Scheduler.UndisturbedIsPass | core/application/task_scheduler.py:34-102 | If nobody commits in between, the outcome is that of one pass as specified, in whatever order the tasks are listed. |
| Scheduler.UndisturbedReady | core/application/task_scheduler.py:84-107 | ... and the tasks returned are exactly those that became QUEUED. |
| Scheduler.ReadyOnce | core/application/task_scheduler.py:34-107 | Whatever others commit, no task is returned twice, and none that was not listed. |
| Scheduler.ScheduleOne | core/application/task_scheduler.py:34-102 | For one task: if its row is still as it was read, PENDING or BLOCKED, it is queued iff every parent has SUCCEEDED in the mission, and blocked iff the first that has not is missing, FAILED or CANCELLED; otherwise nothing changes. It is reported iff it was queued. |
| Passes.PassIsRun | core/application/task_scheduler.py:34-102 | A pass is a run of the protocol's conditional updates, one for each task, in whatever order the tasks are listed. |
| Scheduler.QueuedIff | core/application/task_scheduler.py:34-102 | A pass queues a task iff it was PENDING or BLOCKED and all its dependencies are present and SUCCEEDED. |
| Scheduler.BlockedIff | core/application/task_scheduler.py:30-58 | A pass makes a PENDING task BLOCKED iff the first of its parents, in stored order, that has not SUCCEEDED is missing from the mission, FAILED or CANCELLED; a BLOCKED task stays so unless it is queued, and no other status changes. |
| Scheduler.BlockedHasBadParent | core/application/task_scheduler.py:42-58 | A task newly BLOCKED has a dependency that is failed, cancelled or missing. |
| Scheduler.Store.TryTransitionStatus | core/infrastructure/database/repositories.py:309-342 | The update applies iff the stored row still has the expected status, and then changes only that status. |
| Scheduler.Store.ClaimTask | core/infrastructure/database/repositories.py:272-307 | Succeeds iff the row is QUEUED; then it is RUNNING, assigned, and has one attempt more. |
| Scheduler.TasksOfMission | core/infrastructure/database/repositories.py:249-260 | Lists each task of the mission once. |
| Rounds.NoDeadlock | core/application/task_scheduler.py:34-102 | If the mission's own dependencies have no cycle, all parents are present, and every task is PENDING, BLOCKED or SUCCEEDED but not all SUCCEEDED, one pass queues at least one task. |
| Rounds.RoundsAreLongestChain | core/application/task_scheduler.py:34-102 | Alternating a pass with finishing everything queued, all tasks have succeeded after k rounds iff no dependency chain has more than k tasks. |
| Rounds.DoneIffAcyclic | core/application/task_scheduler.py:34-102 | Such rounds ever finish the mission iff its own dependencies have no cycle, whatever other missions store. |
| RoundRuns.FinishIsRun | core/application/worker_coordinator.py:198-275 | Finishing everything queued is a run of claims, each of a best task, and agents' verdicts. |
| RoundRuns.RoundsAreRuns | core/application/task_scheduler.py:34-102 | From any state with an idle mission, any number of rounds is a run of the protocol, up to who claimed what and how often. |
| RoundRuns.AcyclicMissionCanFinish | core/application/task_scheduler.py:34-102 | An idle mission whose own dependencies have no cycle can be run until all its tasks have succeeded. |
| Coordinator.WorkerCoordinator.ClaimNextTask | core/application/worker_coordinator.py:198-281 | Returns nothing iff the mission is not executing or every task eligible when read has been taken since; otherwise claims an eligible one such that each of those left has a larger priority number, or the same and no earlier creation time; the task, execution and lease rows it writes are given field by field. |
| Coordinator.BestLeftIsBest | core/application/worker_coordinator.py:213-231 | If nothing happened between reading and claiming, that is a task least in (priority, created_at) among all eligible ones. |
| Coordinator.HasOpenDependency | core/application/worker_coordinator.py:218-226 | Finds a dependency that is missing or has not succeeded iff there is one. |
| Coordinator.BestIsFirst | core/application/worker_coordinator.py:213-231 | The first claimable task in the sorted list is least among all claimable ones. |
| Coordinator.Sorted | core/application/worker_coordinator.py:213-213 | A permutation of the tasks in which priority numbers rise and, for equal ones, creation times do not fall. |
| Coordinator.WorkerCoordinator.RenewLease | core/application/worker_coordinator.py:380-414 | Renews iff this worker owns the lease and it is still live; then the expiry is one time to live from now and the count goes up by one. |
| Coordinator.WorkerCoordinator.AssertOwnership | core/application/worker_coordinator.py:425-435 | Passes iff the stored lease is this worker's and has not expired. |
| Coordinator.WorkerCoordinator.ReleaseLease | core/application/worker_coordinator.py:437-445 | Expires the lease now iff it is this worker's, and touches nothing else. |
| Coordinator.WorkerCoordinator.Shutdown | core/application/worker_coordinator.py:156-173 | The current lease expires now, if it is this worker's, unless the poll in flight ends within the waiting time; either way none is left behind, and no task is touched. |
| Coordinator.WorkerCoordinator.CompleteTask | core/application/worker_coordinator.py:503-545 | Goes through iff the task is RUNNING; task and execution become SUCCEEDED and the lease row is written back as it was at the claim, expired now; otherwise every row is as before. |
| Coordinator.WorkerCoordinator.FailTask | core/application/worker_coordinator.py:547-614 | A RUNNING or FAILED task is queued again iff it has attempts left, the execution is FAILED, and the lease is expired if it is this worker's; no ownership is asked for. |
| Coordinator.GetStaleLeases | core/infrastructure/database/repositories.py:1449-1464 | Lists each lease that expired before the given time once. |
| Coordinator.RecoverStale | core/application/worker_coordinator.py:447-497 | Returns how many tasks were RUNNING with attempts left and an expired lease, and makes exactly these QUEUED; an execution becomes FAILED iff it was not SUCCEEDED and an expired lease on it, with its task RUNNING or QUEUED, is listed no later than one that requeues a task. Its commits are recovery steps of the protocol. |
| Execution.ExecuteClaimed | core/application/worker_coordinator.py:287-361 | Run without interference it is the session's own protocol actions in the order that the outside world decides: the agent returns iff the environment came up, verification answers what it answered, completion is tried iff that was a success and the lease was live at each of the three checks, it ends stale iff a check came too late, and otherwise it fails the task; the rows at the end are those of the agent's write and that one ending. |
| Execution.PollOnce | core/application/worker_coordinator.py:179-196 | One poll is the protocol's claim of a best task followed by such a session, leaves no current lease, and does nothing iff there is nothing to claim; the task, execution and lease rows at the end are given for every outcome. |
| Invariants.RunsKeepInv | core/application/worker_coordinator.py:198-614 | In every run, with recovery: attempts are numbered without gaps or repeats, statuses and attempt counts fit together, every lease and session points at stored rows, dependencies stay within a mission and acyclic. |
| Exclusivity.LeaseExclusivity | core/application/worker_coordinator.py:198-275 | In every run without recovery each task has at most one live lease, which belongs to its latest execution, and a PENDING, BLOCKED or QUEUED task has none. |
| Exclusivity.NoSuccessorWithoutRecovery | core/application/worker_coordinator.py:143-154 | In such runs even a worker whose lease has run out is alone on its task and on its latest execution. |
| Exclusivity.RunsKeepOwned | core/application/worker_coordinator.py:287-366 | The inductive form: every open session holds its task's latest execution, whose status is RUNNING until the agent wrote and final afterwards, and every live lease has its session. |
| Hazards.ExclusivityKeptIff | core/application/worker_coordinator.py:447-614 | A step from a state with single ownership keeps it iff the step is not a recovery or a failure that requeues a task somebody else holds. |
| Hazards.RecoverKeepsExclusiveIff | core/application/worker_coordinator.py:447-497 | A recovery step keeps single ownership iff it requeues nothing or nobody holds the task under a live lease. |
| Hazards.FailKeepsExclusiveIff | core/application/worker_coordinator.py:547-614 | A failure keeps single ownership iff it requeues nothing or no other lease on the task is live. |
| HazardRuns.RecoveryBreaksExclusivity | core/application/worker_coordinator.py:451-463 | A run in which no current lease expires and two workers end with live leases on one task. |
| HazardRuns.StaleWorkerRequeues | core/application/worker_coordinator.py:547-614 | A run in which a worker without its lease puts its successor's task back in the queue. |
| HazardRuns.StaleWorkerCompletes | core/application/worker_coordinator.py:503-545 | A run in which a worker whose lease was recovered completes the task its successor is running. |
| HazardRuns.StaleAgentWrites | core/application/agent_runtime.py:342-363 | A run in which the agent of such a worker marks that task SUCCEEDED. |
| HazardRuns.VerifiedSuccessIsMarkedFailed | core/application/agent_runtime.py:342-363 | A run without any loss of a lease in which a verified success ends with its execution FAILED. |
| HazardRuns.ClaimedBeyondLimit | core/infrastructure/database/repositories.py:272-307 | For every max_attempts of 0 or less, a run in which the task is queued and claimed. |
| HazardRuns.ExpiredIsNeverRecovered | core/application/worker_coordinator.py:447-497 | A run that loses its worker on the last attempt at an ownership check, after which no continuation takes the task out of RUNNING. |
| HazardRuns.CrashIsNeverRecovered | core/application/worker_coordinator.py:447-497 | The same for a worker that crashes while its agent works: without it, no continuation takes the task out of RUNNING. |
| Succession.LatestIff | core/infrastructure/database/repositories.py:272-307 | In every run a stored lease is for its task's latest attempt iff the task has not been claimed again. |
| Succession.WritesOnSuccessorIff | core/application/worker_coordinator.py:503-614 | In every run, recovery included: a completion, failure or agent's verdict changes the status of an attempt not its own iff it goes through and the task has been claimed again. |
| Succession.CompletionIsOwnersIff | core/application/worker_coordinator.py:503-545 | In every run a completion that goes through is the owner's iff the lease is not closed and less than the time to live has passed since it was claimed or last renewed. |
| Stranding.StrandedForever | core/application/worker_coordinator.py:472-473 | A RUNNING task with no attempts left, all of whose workers are dead, stays so in every continuation without them. |
| Stranding.MovesAgainIff | core/application/worker_coordinator.py:447-497 | In every run, a RUNNING task all of whose workers are dead, wherever in their sessions, moves again in some continuation without them iff it has attempts left. |
| Stranding.AttemptedIsLeased | core/application/worker_coordinator.py:241-250 | In every run, each attempted task has a stored lease for recovery to find. |
| Lifecycle.CommittedMovesAreLegal | core/domain/tasks/state_machine.py:10-33 | Every committed status change, also the unchecked ones, is a path of legal edges, and no committed state shows READY, RETRYING or CANCELLED. |
| Lifecycle.StatusChangesBounded | core/application/worker_coordinator.py:198-614 | Without recovery a task changes status at most 3n + 1 times in any run, n being its attempt limit (at least 1). |
| Lifecycle.StatusChangesBoundedUnderRecovery | core/application/worker_coordinator.py:447-614 | In every run, with recovery and with agents of workers that lost their lease, at most 4n times; what is still possible is bounded by the row and the agents still out. |
| BoundsAttained.BoundIsReached | core/application/worker_coordinator.py:198-614 | Both bounds are sharp: for every attempt limit some run makes 4n changes, and some run without recovery 3n + 1. |
| Lifecycle.AttemptsAreClaims | core/infrastructure/database/repositories.py:289-291 | A task's attempt count is the number of times it was claimed. |
| Lifecycle.AttemptAccounting | core/infrastructure/database/repositories.py:272-307 | In every run a task's executions are numbered exactly 1 to its number of claims, once each; a QUEUED task has an attempt left; the claims stay within max_attempts exactly when that is at least 1 (or is 0 and no claim was made). |
| TaskStates.FinalStatuses | core/domain/tasks/state_machine.py:10-25 | No path of legal edges leads out of SUCCEEDED or CANCELLED. |
| DependencyOrder.ClaimsFollowDependencies | core/application/worker_coordinator.py:207-231 | In every run, with recovery and retries, a claim of a task comes after the success of each task it then depends on. |
| DependencyOrder.SuccessIsFinal | core/application/worker_coordinator.py:447-614 | SUCCEEDED is never left again. |
| DependencyOrder.FirstClaimsExtendOrder | core/application/worker_coordinator.py:207-231 | First claims form a linear extension of the dependency order. |
| LeaseTiming.LiveIff | core/application/worker_coordinator.py:367-414 | A lease is live iff its holder has not closed it and less than the time to live has passed since it was claimed or last renewed; its count is the number of renewals, except that completion resets it. |
| LeaseTiming.DeadStaysDead | core/application/worker_coordinator.py:380-445 | An expired or released lease is never live again. |
| LeaseTiming.PunctualHeartbeatsSucceed | core/application/worker_coordinator.py:367-414 | While its holder has not closed the lease, if no gap between heartbeats reaches the time to live, every renewal succeeds and the count equals the number of heartbeats. |
| Completion.CompletesIff | core/application/worker_coordinator.py:503-520 | Without recovery, a completion that reaches its commit goes through iff the agent wrote no final status. |
| Completion.VerifiedSuccessEndsFailed | core/application/agent_runtime.py:342-363 | If the agent wrote success, the completion raises, the execution ends FAILED, and the task keeps its success. |
| Completion.CommitFollowsChecks | core/application/worker_coordinator.py:309-348 | In every run a session that is about to commit its completion has had its agent return, its verification succeed, and its lease live at each of the three ownership checks, in this order. |
| AgentLoop.Run | core/application/coding_agent.py:58-231 | The loop ends for every script, at the pass and in the way RunTold says, and writes exactly one verdict: a RUNNING or QUEUED task becomes SUCCEEDED if the run is COMPLETED and FAILED if not, and the execution in any case. |
| AgentLoop.TakePass | core/application/agent_runtime.py:99-189 | One pass of either agent, branch by branch, is a pass of the specification, and writes the verdict iff it stops. |
| AgentLoop.RunTold | core/application/coding_agent.py:117-224 | The run told from the script alone, for both agents: it ends at the first pass that is too late, has no decision, brings the failed actions since the last good tool call to their limit, fails verification with no recovery left, finishes, or whose tool ends it; it is COMPLETED iff that pass ends it well, READY iff the very first pass is too late, FAILED otherwise; and its counters and calls are those of the script so far. |
| AgentLoop.AsksBound | core/application/coding_agent.py:117-224 | Whatever the outside answers, the LLM is asked at most L * max(F, 1) + R times (R only with an engine), and never if a limit is not positive. |
| AgentLoop.BoundIsAttained | core/application/coding_agent.py:117-224 | For every policy some run asks exactly that often, so the bound is sharp. |
| AgentLoop.PassUsesUp | core/domain/agents/interfaces.py:70-75 | The measure behind it: every pass that goes on uses up part of what is left, also the passes that count no iteration. |
| AgentLoop.OutcomeIff | core/application/coding_agent.py:117-150 | A run ends COMPLETED or FAILED, except that it stays READY iff a limit is not positive or the first pass is too late. |
| AgentLoop.CompletedIffVerified | core/application/coding_agent.py:159-189 | The engine is called only on a run recorded as VERIFYING; with an engine a run ends COMPLETED iff some verification succeeded, and that was the run's last call. |
| AgentLoop.RecoveryStaysVerifying | core/application/coding_agent.py:426-449 | A tool call is made on a run recorded as VERIFYING iff a verification came before it, and otherwise on a RUNNING one. |
| AgentLoop.ToolWhileVerifying | core/application/coding_agent.py:157-206 | A run that calls a tool while it is recorded as VERIFYING, for every agent that can recover and has a tool call to spare. |
| AgentLoop.ToolsAlwaysRunningIff | core/application/coding_agent.py:157-206 | All tool calls of all runs are recorded as RUNNING iff the agent has no engine, no recovery or no tool call to spare. |
| AgentLoop.AgentRun.Transition | core/domain/agents/state_machine.py:37-51 | Moves iff the table has the edge; a refusal changes nothing. |
| AgentLoop.TransitionTask | core/application/coding_agent.py:451-470 | A RUNNING or QUEUED task reaches the target, through RUNNING if need be; refused iff the task is in any other status than these and the target. |
| AgentLoop.WriteVerdict | core/application/coding_agent.py:496-517 | The closing unit of work sets the task if it may move and the execution in any case, and changes no other row. |
| AgentLoop.CompleteRun | core/application/coding_agent.py:472-530 | Becomes COMPLETED iff it was RUNNING or VERIFYING; the detour through VERIFYING never helps, and the verdict is written anyway. |
| AgentLoop.FailRun | core/application/agent_runtime.py:379-421 | Becomes FAILED iff it was RUNNING or VERIFYING, and writes the failure on task and execution in any case. |
| ContextBudget.ProcessResults | core/application/rag/service.py:314-364 | Holds exactly one context for the first result of each path that reaches the threshold, showing its history, its first five references or its first 5000 characters, by falling score and, among equals, in the order in which they were found. |
| ContextBudget.CountTokens | core/application/rag/service.py:76-83 | A quarter of the characters, rounded down, and at least one. |
| ContextBudget.RelevantIff | core/application/rag/service.py:322-360 | A context is selected iff it is made from the first result for its path that reaches the threshold. |
| ContextBudget.RankedSources | core/application/rag/service.py:314-364 | The processed list is descending, holds each path once, nothing below the threshold, and token counts that match the contents. |
| ContextBudget.RankedLaid | core/application/rag/service.py:319-362 | The specified list is laid out so: each context shows the first relevant result of its path, and equal scores keep the order of the results. |
| ContextBudget.JoinAppend | core/application/rag/service.py:334-335 | References are joined by line breaks: each further one is appended after a break. |
| ContextBudget.RankedIsStableSort | core/application/rag/service.py:361-362 | The ranking is a descending permutation that keeps items of equal score in their order. |
| ContextBudget.StableSortIsUnique | core/application/rag/service.py:361-362 | Order and stability leave no other ranking possible. |
| ContextBudget.ApplyTokenBudget | core/application/rag/service.py:366-400 | The summing loop and the greedy loop return what the specification of the budget says. |
| ContextBudget.BudgetTheorem | core/application/rag/service.py:366-400 | The result is the longest prefix that fits and at most one more context: its first 4 characters per token left, at 0.8 of its score, marked as truncated; the budget is never exceeded, and either everything is kept or at most 100 tokens go unused, none if a context was cut. |
| ContextBudget.GreedyIsBudgeted | core/application/rag/service.py:373-375 | The early return when everything fits is only a shortcut. |
| ContextBudget.BudgetIsIdempotent | core/application/rag/service.py:366-400 | Applying a budget twice equals applying it once. |
| ContextBudget.MoreBudgetKeepsMore | core/application/rag/service.py:366-400 | A larger budget keeps at least as many contexts whole and at least as many tokens. |
| ContextBudget.BudgetKeepsCount | core/application/rag/service.py:81-83 | If every input's tokens match its content, so do every output's, cut or not. |
| ContextBudget.StillRankedIff | core/application/rag/service.py:380-398 | The result is still descending iff no context must be cut behind another, or the cut one's reduced score is not above its neighbour's. |
| ContextBudget.StillRanked | core/application/rag/service.py:380-398 | Non-negative scores always keep the order. |
| ContextBudget.NegativeScoresLoseTheRanking | core/application/rag/service.py:157-161 | For every negative threshold, two files of one score at the threshold come back in the wrong order. |
| ContextBudget.AlwaysRankedIff | core/application/rag/service.py:157-161 | Whatever is found and whatever the budget, bundles come back ranked iff the relevance threshold is not negative. |
| ContextBudget.RetrievedFits | core/application/rag/service.py:157-161 | Processing and budgeting together: within budget, at most 100 tokens unused, tokens accounted for, and ranked when the threshold is not negative. |
| ContextCache.ContextRetrievalService.RetrieveContext | core/application/rag/service.py:119-173 | Answers from the cache iff the key is there and the call's two clock readings are less than the time to live apart, and stores a fresh answer otherwise. |
| ContextCache.EntryAnswersIff | core/application/rag/service.py:121-129 | After any history a stored entry answers, whatever the searches would find, iff those readings are less than the time to live apart or there is no budget for anything; its age plays no part. |
| ContextCache.EntriesNeverExpire | core/application/rag/service.py:121-129 | For every age there is a run in which an entry that old still answers. |
| ContextCache.KeysCollide | core/application/rag/service.py:425-433 | Two queries with different texts and strategies share a key, because separators are not escaped. |
| ContextCache.SameKeyIff | core/application/rag/service.py:425-433 | For queries without separators inside their parts, the key is the same iff mission, task and the first 100 characters of the text are, and the strategies up to their order. |
| ContextCache.CacheHoldsDecidingAnswers | core/application/rag/service.py:123-164 | After any history, the cached answer is the fresh answer to the first query with the key, or to the last slow one. |
| ContextCache.FitsUnlessBudgetShrinks | core/application/rag/service.py:425-433 | An answer fits its budget unless the query behind it asked for more. |
| ContextCache.CachedAnswerFitsIff | core/application/rag/service.py:425-433 | After any queries, the next answer fits its budget, whatever the searches return for it and for those before, iff the query that decides it asked for no tokens or for no more. |
| MissionLog.MissionService.CreateMission | core/application/mission_service.py:23-47 | Stores a CREATED mission and its event together, or nothing. |
| MissionLog.MissionService.UpdateMissionStatus | core/application/mission_service.py:49-67 | Changes status and log together iff the mission exists and the edge is in the table; otherwise neither. |
| MissionLog.MissionService.RequestMissionApproval | core/application/mission_service.py:77-95 | Stores a pending approval and its event together iff the mission exists. |
| MissionLog.MissionService.ResolveApproval | core/application/mission_service.py:97-188 | Recorded iff the approval and its mission exist and it is no rejection for a PLANNED mission: the approval then has the verdict as its status, the event of its kind is logged, and an approved execution moves PLANNED to APPROVED_FOR_EXECUTION, an approved merge AWAITING_HUMAN_APPROVAL to MERGED, each with its event; otherwise nothing changes. |
| MissionLog.LogAgreesWithState | core/application/mission_service.py:49-188 | After any requests, replaying a mission's events goes from CREATED along legal edges to the stored status; a mission not stored has no events. |
| MissionLog.MergedPassedEverything | core/domain/missions/state_machine.py:10-57 | The log of a MERGED mission visits the eight milestones from PLANNING to AWAITING_HUMAN_APPROVAL in order. |
| MissionLog.PassesMilestones | core/domain/missions/state_machine.py:10-57 | For every status, the milestones that a history ending there must have visited, in order. |
| MissionLog.NeverAborted | core/domain/missions/state_machine.py:10-57 | No requests bring a mission to ABORTED. |
| MissionLog.FinalMissionsStay | core/domain/missions/state_machine.py:10-57 | A mission that is MERGED, CANCELLED or FAILED_PERMANENTLY stays so whatever is requested afterwards, and exactly these and ABORTED have no edge. |
| MissionLog.ResolutionRecordedIff | core/application/mission_service.py:97-188 | A resolution is recorded iff the approval exists and it is not a rejection for a PLANNED mission. |
| MissionLog.RejectionIsUndone | core/application/mission_service.py:169-185 | A run in which an approval is asked for a planned mission, and rejecting it leaves everything as it was. |
| MissionLog.ProtectedStatusesAreGated | core/application/mission_service.py:130-168 | APPROVED_FOR_EXECUTION and MERGED are entered only right after an approval of that mission of the right kind iff no request ever set one outright where the table allows it. |
| MissionLog.GatedStepIff | core/application/mission_service.py:49-188 | The same for one request, from any state with an orderly log. |
| MissionLog.MergedWithoutApproval | core/application/mission_service.py:49-67 | Setting statuses outright merges a mission for which no approval was ever requested. |
| PlanStore.PlanTable.GeneratePlan | core/application/planner_agent.py:39-170 | Refuses unless the mission is PLANNING; then supersedes its active plans, and stores as VALIDATED the first acceptable of two responses, or a REJECTED plan, or nothing if the provider raised first; its effect is that of the commits of one whole call. |
| PlanStore.PlanTable.DecidePlan | apps/api/main.py:554-583 | A stored plan, of whatever status, becomes APPROVED or REJECTED as asked, and no other plan changes. |
| PlanStore.PlanTable.Supersede | core/application/planner_agent.py:46-54 | Exactly the mission's GENERATED and VALIDATED plans become SUPERSEDED. |
| PlanStore.ActiveAreStoredSince | core/application/planner_agent.py:46-54 | However commits interleave, a mission's active plans are exactly those stored since its plans were last superseded and not approved or rejected since. |
| PlanStore.FromAppend | core/application/planner_agent.py:133-135 | Calls made one after another have the effect of all their commits in order. |
| PlanStore.OneActivePlan | core/application/planner_agent.py:39-170 | Calls made one after another, with decisions between them, leave at most one active plan. |
| PlanStore.OverlappingCallsLeaveTwo | core/application/planner_agent.py:39-170 | Two overlapping calls leave two. |
| PlanStore.ApprovedPlansStand | core/application/planner_agent.py:50-53 | After superseding, a plan still stands iff one had been approved. |

## Left out

- The HTTP routes, webhooks, the clients for GitHub, NVIDIA and Forge, migrations, logging and metrics: plumbing around the operations modelled.
- SQL sessions, row locks and isolation levels: a committed unit of work is one step, read at one instant; `utc_now()` calls inside one unit of work give the same time.
- Protocol.Next: a claim is one step with the reading of the rows it was decided from, so a dependency stored between the two is not modelled; the method `ClaimNextTask` does tell reading and claiming apart.
- Coordinator.RecoverStale: the re-reading of a lease inside the loop finds it as it was listed, since the method runs without interference; in the protocol its commits interleave with everything else.
- Execution.ExecuteClaimed: heartbeats, which run beside it, are not in the method; in the protocol they are steps of their own at any time.
- Execution.PollOnce: the flags that stop a worker before it polls are not modelled; it is the poll of a worker that is running and not draining.
- Coordinator.WorkerCoordinator.Shutdown: the worker's status is not modelled, and what the poll in flight writes while it is waited for are its own steps.
- Prompts, LLM responses, JSON parsing and schema validation, and the bodies of the tools: arbitrary answers.
- The checks inside the verification engine: one flag. An exception from it, or from a tool or the LLM client inside a run, ends `run` without a verdict and is the `Untouched` outcome of the protocol.
- Rounding in scores and times: scores are reals, times are integers.
- The hash of the cache key, taken to be free of collisions; the joined key before it is modelled.
- Worker registration and status bookkeeping, heartbeat rows, orphan-directory recovery, worktrees and sandboxes.
- The lease repository's own `claim_task`, the agent-task state machine and the workflow entities, which nothing drives.
- Events about tasks and executions, `calculate_progress` and `is_allowed`: they would add only easy members.
- Ids are inputs; where the code makes a fresh one, the model refuses a repeated one, as the primary key would, or asks for one not yet in use.
