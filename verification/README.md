# Verified model of the scheduler's control core

This project models the control core of an asynchronous task scheduler and proves its
main promises with Dafny: the DAG engine, the Redis priority queue, the lease protocol,
the reconciler, the circuit breakers, the callback queues, MySQL-first writes with
repair, and GPU node selection. `dafny verify dfyconfig.toml` checks everything.

| file | component |
|---|---|
| `Prelude.dfy` | options, string order, sequences without repeats, doubling delays |
| `Conditions.dfy` | step conditions: the evaluator and Python's own rules |
| `DagModel.dfy`, `TopoSort.dfy` | step records; the wave scheduler |
| `StepRun.dfy`, `WaveConfluence.dfy`, `DagExecution.dfy` | one step; one wave in any interleaving; whole runs |
| `SortedSets.dfy`, `QueueModel.dfy`, `QueueManager.dfy` | Redis sorted sets; the queue as a transition system; the queue as an object |
| `Lease.dfy`, `StuckRecovery.dfy`, `Rebuild.dfy` | leases; reconciler phase 2; reconciler phase 0 |
| `RedisHA.dfy`, `KeyedBreaker.dfy` | client-side breaker and deferred writes; the Redis-backed breaker |
| `DurableCallbacks.dfy`, `Outbox.dfy`, `Compensation.dfy` | callback retry queue; callback outbox; MySQL-first writes and repair |
| `NodeSelection.dfy` | greedy GPU selection |

How the model is built:

- Code that updates state in place is a class whose methods are proved against functions
  on values; the promises over whole runs are lemmas about those functions. Concurrency is
  a transition system over the atomic actions (one Lua script, one Redis command, one
  stretch of a coroutine between two suspension points).
- The outside world is a parameter: dispatch replies, HTTP outcomes, Redis availability
  and clock readings are arbitrary functions or arguments, so each claim holds for all of
  them. Integers are unbounded; where the width matters (packed scores in binary64) the
  bound is a lemma. Numbers in conditions are exact reals. The context and the input of a
  run start from equal dictionaries that do not alias, since the pydantic model copies them.
- A run of the DAG engine splits each step into three actions: read the condition and the
  inputs, enter the semaphore (where a MAP step reads its list), write the outcome. The
  semaphores are not modelled, so more interleavings are covered than can happen.

What the proofs bring out about the code:

- A FALLBACK step without a fallback configuration raises without stopping the run, so a
  later step can start although its dependency was never recorded
  (`DagExecution.UnprotectedBreaksOrder`). For steps that always run
  `DagExecution.RecordedIffProtected` says exactly which ones this can happen to.
- Input mapping falls back from a false context value to the step result of that name, so a
  step's output of 0, "" or [] is in general not what its dependents read under that key
  (`StepRun.ZeroIsDropped`; the exact condition is `StepRun.OutputReachesInput`).
- The condition evaluator evaluates every operand. With unset names read as None, `x and
  x.y` with `x` unset is false under the short-circuit rules but fails open to true here
  (`Conditions.FailsOpen`), and `and`/`or` used as a value gives a boolean
  (`Conditions.PlacementNeeded`). `not (x in y)` is not `x not in y` exactly where `y` is
  no container for `x`: both tests are then false (`Conditions.NegationMovesIn`).
- A dequeue only looks at the first `scan_limit` members, so due work behind that many
  tasks not yet due is not found (`QueueModel.ScanCanMissDueTask`; the exact condition is
  `QueueModel.DequeueIsExact`).
- Enqueueing an id that is still running leaves it in both sets
  (`QueueModel.EnqueueNeedsFreshId`).
- A cleanup of stale entries removes what its earlier query found, also a task that was
  handed out anew in the meantime (`QueueModel.CleanupCanTakeFresh`, exactly when in
  `QueueModel.CleanupIsExact`).
- A call that Redis answers only after failed attempts that reached the breaker's threshold
  leaves the breaker open with no failure time, and no later call is ever admitted
  (`RedisHA.OneLossLocksOut`, exactly when in `RedisHA.LocksItself`).
- With `max_retries` at zero or below, a retry pass drops every deferred operation from the
  first admitted check on without sending it (`RedisHA.NoAttemptsDrop`).
- A retry pass walks a list that its own failing calls extend. It need not end:
  `RedisHA.GrowingNeedNotEnd` builds a Redis and a clock that keep it going for ever from
  every state in which deferring is possible, `RedisHA.GrowthlessEnds` shows that from all
  other states it ends, and `RedisHA.CalmWalkEnds` that it ends if no two readings of the
  pass are further apart than the reset timeout.
- A repair whose bookkeeping save fails too is not counted. A record is gone after
  `max_retries` + 1 repairs if none raises (`Compensation.RepairsEnd`); with Redis down it
  stays as it is for any number of repairs (`Compensation.DualStore.RepairRepeatedly`). A
  coordinated write raises although MySQL has the row exactly if both the Redis write and
  the save by the compensation service fail (`Compensation.DualStore.WriteAtomic`).
- A dispatcher pass that posts and does not commit leaves its posts uncounted, so without
  commits there is no bound on them (`Outbox.LossesUnbound`).

## Model

| member | source | states |
|---|---|---|
| TopoSort.TopoSort | src/platform/dag_engine.py:495-515 | for distinct names it terminates; a step is scheduled exactly when its dependency closure is known and cycle-free, once, in the wave whose index is the length of its longest dependency chain; no wave is empty |
| TopoSort.LevelWavesAreCorrect | src/platform/dag_engine.py:505-515 | waves of first-ready levels are exactly that schedule, in terms of dependency chains |
| TopoSort.OneWave | src/platform/dag_engine.py:505-515 | a step is in one wave only |
| TopoSort.DependenciesComeEarlier | src/platform/dag_engine.py:505-515 | every dependency is in a strictly earlier wave |
| TopoSort.UnreadyIsUnschedulable | src/platform/dag_engine.py:506-514 | what the loop never reaches has an unknown or cyclic dependency chain |
| TopoSort.ReadyIsSchedulable | src/platform/dag_engine.py:506-514 | what the loop reaches has only known, cycle-free dependency chains |
| TopoSort.ReadyBoundsChains | src/platform/dag_engine.py:506-514 | a dependency chain out of a step freed within k rounds has at most k nodes, all known, none twice |
| TopoSort.ReadyHasChain | src/platform/dag_engine.py:506-514 | a step freed in round k + 1 and not before has a chain of exactly k edges |
| TopoSort.InDegreeTable | src/platform/dag_engine.py:497 | in-degrees count dependency entries, repeated ones included |
| TopoSort.BuildAdjacency | src/platform/dag_engine.py:498-502 | each known dependency lists its dependents once per occurrence; unknown ones are dropped |
| TopoSort.FirstQueue | src/platform/dag_engine.py:504 | the first queue holds each step of in-degree zero once |
| TopoSort.Decrement | src/platform/dag_engine.py:510-513 | counts fall by the number of occurrences and the names that reach zero are collected once |
| TopoSort.RunWave | src/platform/dag_engine.py:507-514 | after a wave the counts match the enlarged processed set and the next queue is its newly freed steps |
| DagModel.StepMap | src/platform/dag_engine.py:95 | the step dictionary has exactly the step names as keys and maps each to a step of that name |
| Conditions.EvalNode | src/platform/dag_engine.py:418-489 | the recursive evaluator with its loops computes the specified eager evaluation, errors included |
| Conditions.EvalChain | src/platform/dag_engine.py:428-459 | the comparison-chain loop: all right-hand sides evaluated, comparisons only while the flag holds |
| Conditions.EvalOperands | src/platform/dag_engine.py:460-462 | all operands of and/or are evaluated in order |
| Conditions.EagerAgrees | src/platform/dag_engine.py:418-489 | without an error and with and/or in boolean position only, the truth value is that of left-to-right short-circuit evaluation with chained comparisons (sections 6.10 and 6.11 of the Python Language Reference) |
| Conditions.LinksAgree | src/platform/dag_engine.py:428-459 | without an error a comparison chain has the value of the short-circuit chain |
| Conditions.BoolsAgree | src/platform/dag_engine.py:460-466 | without an error all and any have the truth value of short-circuit and/or |
| Conditions.SafeEvalSpec | src/platform/dag_engine.py:410-416 | for and/or in boolean position, the wrapper is true exactly on an error or where Python answers true |
| Conditions.PlacementNeeded | src/platform/dag_engine.py:460-466 | concrete expression with `or` as a value where the two differ |
| Conditions.FailsOpen | src/platform/dag_engine.py:414-416 | concrete expression that is false in Python but fails open |
| Conditions.EvalReadsNames | src/platform/dag_engine.py:418-489 | evaluation depends only on the variables the expression names |
| Conditions.OrderMirrors | src/platform/dag_engine.py:438-445 | a < b is b > a and a <= b is b >= a on all values, also where they raise |
| Conditions.PyEqSymmetric | src/platform/dag_engine.py:434-437 | equality is symmetric through nested lists and dictionaries |
| Conditions.NegationMovesIn | src/platform/dag_engine.py:434-473 | for all expressions, moving `not` into a comparison keeps the value, errors included, if and only if it is not a membership test of something that contains nothing |
| Conditions.SidesSwap | src/platform/dag_engine.py:434-445 | for all expressions, swapping the sides of an equality or ordering with the operator mirrored keeps the value, errors included |
| Conditions.OrderComplements | src/platform/dag_engine.py:438-445 | of an ordering and its negation exactly one holds or both raise, through nested lists |
| Conditions.EqualityMeans | src/platform/dag_engine.py:434-437 | two values are equal exactly if they are the same value once truth values count as numbers, at any depth |
| Conditions.EqualityTests | src/platform/dag_engine.py:434-437 | == and != of evaluated expressions are that equality and its negation |
| Conditions.NumbersCompare | src/platform/dag_engine.py:438-445 | <, <=, > and >= of two numbers, or truth values as numbers, compare their values |
| Conditions.StringsCompare | src/platform/dag_engine.py:438-445 | <, <=, > and >= of two strings compare code points at the first difference |
| Conditions.ListsCompare | src/platform/dag_engine.py:438-445 | an ordering of two lists is that of their elements at the first difference, errors included; a list that ends there comes first |
| Conditions.OthersDoNotCompare | src/platform/dag_engine.py:438-445 | ordering values of different or other kinds raises |
| Conditions.MembershipTests | src/platform/dag_engine.py:446-450 | `in` finds a substring, an equal element or a key, and is false of anything else |
| Conditions.NotMeans | src/platform/dag_engine.py:472-473 | `not` is true of exactly None, false, zero and what is empty |
| Conditions.LeavesMean | src/platform/dag_engine.py:420-424 | constants are themselves, other constants None, unsupported nodes and operators raise |
| Conditions.ReadsMean | src/platform/dag_engine.py:425-427 | names read their variable or None; attributes read a field or None of dictionaries and raise otherwise; signs apply to numbers only |
| Conditions.JunctionsMean | src/platform/dag_engine.py:460-466 | `and` and `or` of evaluated operands are conjunction and disjunction of their truth |
| Conditions.ChainsMean | src/platform/dag_engine.py:428-459 | a chain of two comparisons holds exactly if both links do |
| StepRun.RunAttempts | src/platform/dag_engine.py:205-228 | the retry loop settles the step as specified; it calls until the first good reply or the last allowed attempt, and never when max_retries is negative |
| StepRun.RetriesTakeFirstReply | src/platform/dag_engine.py:205-228 | the first good reply among the allowed attempts is the result; without one the failure policy decides |
| StepRun.SettleRaises | src/platform/dag_engine.py:178-184 | the work of a step raises only under ABORT, or FALLBACK without configuration, and only if the step can fail at all |
| StepRun.SettleExtremes | src/platform/dag_engine.py:205-228 | if every call fails, a step that can fail ends in its policy; if none does, it has a result |
| StepRun.PlainSettles | src/platform/dag_engine.py:202-228 | a step that is no MAP step takes its first good reply within the attempts, else its policy, and nothing without attempts |
| StepRun.PolicyMeans | src/platform/dag_engine.py:223-228 | a finally failed step yields the fallback mapping value for value, nothing under SKIP, and otherwise raises |
| StepRun.MapGathersInOrder | src/platform/dag_engine.py:154-186 | a MAP step yields one value per item in item order; failed items carry error and index under CONTINUE and trigger the policy under ABORT_ALL |
| StepRun.MapScatters | src/platform/dag_engine.py:146-148 | a MAP step scatters over every element of the list of its input, else of the context; a single value is one item |
| StepRun.OutputReachesInput | src/platform/dag_engine.py:135-139 | a value written under a context key is what a later step reads under it if and only if it is true, or equals the step result of that name, or without such a result the initial input |
| StepRun.ZeroIsDropped | src/platform/dag_engine.py:137-139 | an output of 0 is in the context and does not reach the step that maps it |
| StepRun.ResultReachesInput | src/platform/dag_engine.py:235 | mapping a step's name reads its whole result unless the context shadows it |
| StepRun.UnmappedInputStays | src/platform/dag_engine.py:135-139 | unmapped inputs and mappings without a value keep the initial input |
| StepRun.ConditionDecides | src/platform/dag_engine.py:129-132 | a step runs exactly if it has no condition, or one that does not parse, fails, or is true over the context overlaid by the input, true meaning true under the short-circuit rules where and/or are in boolean position; otherwise it is only recorded |
| StepRun.MapInputs | src/platform/dag_engine.py:135-139 | the input-mapping loop builds the specified input |
| StepRun.MapOutputs | src/platform/dag_engine.py:231-233 | the output-mapping loop updates exactly the mapped keys found in the result |
| StepRun.DagContext.constructor | src/platform/dag_engine.py:80-88 | a fresh context holds the initial values and no results |
| StepRun.DagContext.BeginStep | src/platform/dag_engine.py:128-139 | the context object goes on to the work exactly if the condition is absent, unparsed, failing or true over context and input; otherwise only the completion record changes |
| StepRun.DagContext.FinishStep | src/platform/dag_engine.py:230-242 | last action: outputs, result, completion, or the exception |
| WaveConfluence.WaveIsConfluent | src/platform/dag_engine.py:106-111 | for independent steps, every two finishing interleavings agree on context, step results, completed steps and on which steps raised |
| WaveConfluence.ThreeTurnsFinish | src/platform/dag_engine.py:107-111 | every interleaving that gives each step three turns finishes |
| WaveConfluence.ReadsDecide | src/platform/dag_engine.py:128-148 | condition, input and MAP list depend only on the declared reads |
| WaveConfluence.ScheduleKeepsInv | src/platform/dag_engine.py:106-111 | for independent steps, at every moment of every interleaving the context is the start of the wave plus the parts of the ended steps |
| WaveConfluence.StepKeepsInv | src/platform/dag_engine.py:128-236 | one action of one step keeps that relation |
| DagExecution.RunsAreSafe | src/platform/dag_engine.py:105-119 | the safety invariant holds in every reachable state, for all replies and interleavings |
| DagExecution.MoveIsSafe | src/platform/dag_engine.py:121-242 | one action of one step keeps the safety invariant |
| DagExecution.InspectIsSafe | src/platform/dag_engine.py:111-119 | inspecting a gathered wave keeps the safety invariant |
| DagExecution.StartsAfterDependencies | src/platform/dag_engine.py:105-111 | in every state where a wave runs, each dependency of each of its steps is in completed_steps unless it is a FALLBACK step without configuration that can fail; nothing is recorded twice |
| DagExecution.CompletedMeansAllDone | src/platform/dag_engine.py:118-119 | a COMPLETED run recorded only schedulable steps, none twice, and misses none but unprotected ones; with no unprotected step it recorded exactly the schedulable ones |
| DagExecution.RecordedIffProtected | src/platform/dag_engine.py:105-116 | a step that always runs is recorded in every run that gets to a later wave if and only if it is not an unprotected step |
| DagExecution.RunLoses | src/platform/dag_engine.py:105-116 | from any wave on, a run can go to any later wave with an always running unprotected step never recorded |
| DagExecution.AbortIsFinal | src/platform/dag_engine.py:112-116 | once an ABORT step raised, no later wave starts and FAILED is the only outcome |
| DagExecution.RunsAreFinite | src/platform/dag_engine.py:105-119 | no run goes on for ever: at most three actions per scheduled step and one inspection per wave happen |
| DagExecution.NeverStuck | src/platform/dag_engine.py:105-119 | in a running state something can happen, whatever the outside world answers |
| DagExecution.RunEnds | src/platform/dag_engine.py:111-119 | for every plan, context, interleaving and world: when nothing is left to happen the run is FAILED if an ABORT step raised on the way and COMPLETED otherwise |
| DagExecution.AbortDecides | src/platform/dag_engine.py:112-119 | an ended run is FAILED exactly if an ABORT step raised at some moment of it |
| DagExecution.CanComplete | src/platform/dag_engine.py:105-119 | from every running state in which no ABORT step has raised some events lead to COMPLETED |
| DagExecution.ResultsStay | src/platform/dag_engine.py:235 | once a step has ended its result stays as it is to the end of the run |
| DagExecution.WaveInherits | src/platform/dag_engine.py:105-111 | a wave starts from the very context the waves before it left |
| DagExecution.UnprotectedBreaksOrder | src/platform/dag_engine.py:113-116 | concrete plan with a run in which the wave of a step runs while its dependency was never recorded |
| SortedSets.RankedLists | src/platform/queue_manager.py:66 | the range query lists exactly the members, ordered by score and then member |
| SortedSets.RankIsIndex | src/platform/queue_manager.py:66 | a member's position is the number of members before it |
| QueueModel.TsRoundTrip | src/platform/queue_manager.py:70 | the modulus gives the timestamp back if and only if it lies in [0, 10^13) |
| QueueModel.PackOrder | src/platform/queue_manager.py:190 | for timestamps in [0, 10^13) score order is (priority, timestamp) order and scores determine both |
| QueueModel.PackIsExact | src/platform/queue_manager.py:190 | priorities 0 to 899 keep scores below 2^53, where binary64 is exact on integers (section 3.4 of IEEE 754-2019); 900 does not |
| QueueModel.DequeueIsExact | src/platform/queue_manager.py:59-79 | with a free slot a task is handed out if and only if it is the least due one and fewer than scan_limit tasks precede it (any number if the limit is negative) |
| QueueModel.DequeueReturnsLeast | src/platform/queue_manager.py:59-79 | with a free slot, a due task and fewer than scan_limit tasks not yet due, the least (priority, timestamp, id) of all due tasks is returned |
| QueueModel.RunKeepsJobs | src/platform/queue_manager.py:188-197 | in every run from an empty queue with timestamps below 10^13 the scores encode exactly the waiting jobs |
| QueueModel.EveryDequeueReturnsLeast | src/platform/queue_manager.py:218-231 | in every such run the dequeue makes that choice among the jobs the producers enqueued |
| QueueModel.ScanCanMissDueTask | src/platform/queue_manager.py:66-78 | a queue whose due task the bounded scan does not find |
| QueueModel.EnqueueNeedsFreshId | src/platform/queue_manager.py:43-47 | an accepted enqueue keeps the sets disjoint iff the id is not running and grows pending iff it was not pending |
| QueueModel.RunBalances | src/platform/queue_manager.py:37-95 | in every run from an empty queue with fresh ids pending and running stay disjoint, enqueued = pending + dequeued + cancelled while pending, and dequeued = running + everything taken from running |
| QueueModel.StepBalances | src/platform/queue_manager.py:37-105 | the same balance for every single operation |
| QueueModel.RunKeepsLimits | src/platform/queue_manager.py:97-136 | in every run pending stays within the depth limit, and a stored max_concurrent of at least one stays at least one and is the limit in force |
| QueueModel.RunningGrowsBelowLimit | src/platform/queue_manager.py:62-75 | running grows only by a dequeue below the limit of that moment, by one |
| QueueModel.RunCountsOutcomes | src/platform/queue_manager.py:89-95 | the completed and failed counters count the reported outcomes |
| QueueModel.RunAccounts | src/platform/queue_manager.py:59-95 | in every run from an empty queue with fresh ids, every task handed out is running, completed, failed or was dropped, up to outcomes reported of tasks that were not running |
| QueueModel.RecoverReachesBaseline | src/platform/queue_manager.py:123-136 | n recoveries raise a limit below the baseline by n, up to it and never beyond; a limit at or above it, or none, they leave alone |
| QueueModel.AdjustsAddUp | src/platform/queue_manager.py:97-105 | a run of adjustments never leaves the limit below one or below the sum of the deltas, and exactly at the sum if no prefix takes it below one |
| QueueModel.LimitsInForce | src/platform/queue_manager.py:40-65 | a dequeue hands out the first due task in scan exactly below the stored concurrency limit, or the default where none is usable; an enqueue is accepted exactly below the stored or default depth |
| QueueModel.SlotIsFreed | src/platform/queue_manager.py:81-95 | cancelling, completing, failing or releasing an id frees its slot and no other; a cancelled id is in neither set |
| QueueModel.CleanupIsExact | src/platform/queue_manager.py:311-318 | with any operations between query and removal, exactly the ids the query found go; an entry newer than the cutoff goes only if its task was handed out again in between; with nothing in between exactly the stale entries go |
| QueueModel.CleanupCanTakeFresh | src/platform/queue_manager.py:311-318 | concrete operations between query and removal that cost a task its slot although it has just started |
| QueueModel.NotBeforeItsTime | src/platform/queue_manager.py:188-190 | with timestamps below 10^13, no dequeue returns an accepted task before its timestamp unless it is enqueued again |
| QueueManager.ScanForDue | src/platform/queue_manager.py:67-77 | the candidate loop finds the first due candidate |
| QueueManager.RemoveEach | src/platform/queue_manager.py:315-318 | the removal loop deletes exactly the stale members |
| QueueManager.QueueManager.constructor | src/platform/queue_manager.py:142-157 | a fresh queue is empty with the given configuration |
| QueueManager.QueueManager.Enqueue | src/platform/queue_manager.py:176-216 | state change and reply: accepted with position and count, full with the count, or refused by the breaker |
| QueueManager.QueueManager.DequeueReady | src/platform/queue_manager.py:218-231 | moves exactly the chosen task to running, or changes nothing |
| QueueManager.QueueManager.Cancel | src/platform/queue_manager.py:81-87 | removes from pending first, else from running, and reports whether it was there |
| QueueManager.QueueManager.Complete | src/platform/queue_manager.py:239-246 | frees the slot and counts a completion |
| QueueManager.QueueManager.Fail | src/platform/queue_manager.py:248-255 | frees the slot and counts a failure |
| QueueManager.QueueManager.CleanupStaleRunning | src/platform/queue_manager.py:307-320 | with other clients acting between query and pipeline: removes what the query found and returns how many that were |
| QueueManager.QueueManager.AdjustConcurrent | src/platform/queue_manager.py:97-105 | returns the new limit, at least one |
| QueueManager.QueueManager.TryRecoverConcurrent | src/platform/queue_manager.py:123-136 | one step towards the baseline; returns the stored limit, or the baseline where none is stored |
| Lease.HoldingIsOwning | src/platform/task_executor.py:25-42 | the key names exactly the party whose own calls say it holds the lease |
| Lease.HolderOwnsKey | src/agent/server.py:88-121 | while the last own success is less than a lifetime old, the key is the caller's until then |
| Lease.OwnerHolds | src/agent/server.py:112-127 | the live owner on record got there by its own last success |
| Lease.AtMostOneHolder | src/platform/task_executor.py:65-128 | at most one holder at any time, over every timed run |
| Lease.OthersAreShutOut | src/platform/task_executor.py:25-42 | while one party holds, no acquire, renew or release of another succeeds or changes the key |
| Lease.ExpiredLeaseIsFree | src/platform/task_executor.py:71-73 | an acquire succeeds iff nobody holds the lease |
| Lease.OthersCannotOwnForMe | src/agent/server.py:88-109 | no commands of other parties make a party the owner |
| Lease.LeaseKey.SetNx | src/platform/task_executor.py:71 | SET NX with time to live: succeeds and takes the key iff it is free, and logs the event |
| Lease.LeaseKey.CompareAndRenew | src/platform/task_executor.py:33-42 | renews only the caller's own live lease |
| Lease.LeaseKey.CompareAndDelete | src/platform/task_executor.py:25-32 | deletes only the caller's own live lease |
| Lease.LeaseKey.TryBecomeLeader | src/platform/task_reconciler.py:104-117 | with others acting between the two commands: succeeds if and only if the key is free at first or still the caller's own later; success means holding it for a full lifetime, failure adds nothing to what others did |
| Lease.LeaseKey.Heartbeat | src/agent/server.py:194-214 | one renew-or-reacquire round with others acting in between: success means owning, failure means another instance owns by then; an owner always succeeds |
| Lease.LeaseKey.HeartbeatTask | src/agent/server.py:190-214 | the loop gives up exactly at the first three failed rounds in a row, and then another instance owns the node |
| StuckRecovery.HandlingsAreSpaced | src/platform/task_reconciler.py:367-371 | over any number of instances two handlings of one task are at least 300 s apart |
| StuckRecovery.VisitsKeepCover | src/platform/task_reconciler.py:367-371 | every handling is covered by a dedup key of its lifetime, every key stems from a handling, and handlings stay spaced, over any visits |
| StuckRecovery.Reconciler.Consider | src/platform/task_reconciler.py:356-371 | a task is handled iff it passes the lock and age tests and its dedup key is free |
| StuckRecovery.Reconciler.Tick | src/platform/task_reconciler.py:326-389 | with other instances interfering: the two lists hold exactly the tasks whose dedup key this tick took, each once and in batch order, requeue those with attempts left and a queue, fail the others; at most stuck_max_per_tick; if the budget is not used up, every stuck task of the batch was handled by some instance at its visit or less than 300 s before |
| StuckRecovery.TookExactly | src/platform/task_reconciler.py:352-389 | a task is taken exactly if the tick changes its dedup key, for 300 s; only if running or queued, with an id, unlocked, old enough and its key free; and every such task while the budget lasts |
| StuckRecovery.TookInOrder | src/platform/task_reconciler.py:352-354 | tasks are taken in batch order, each once, at most stuck_max_per_tick |
| StuckRecovery.ListedOnce | src/platform/task_reconciler.py:376-387 | every taken task is listed exactly once, for another attempt or as failed |
| StuckRecovery.HeldLeaseIsLeftAlone | src/platform/task_reconciler.py:359-360 | a task whose execution lease is held when the tick asks is not stuck |
| StuckRecovery.BackoffRange | src/platform/task_reconciler.py:427 | the delay lies in [10000, 600000] ms, never shrinks, and is at its cap exactly from attempt 6 |
| StuckRecovery.RequeuedTaskWaits | src/platform/task_reconciler.py:420-435 | an accepted requeue has the priority of the task and keeps it from every dequeue until the tick's reading plus the delay |
| Rebuild.RebuildRestores | src/platform/task_reconciler.py:135-212 | existing entries, scores and running sets survive; every row is cached, and pending or running if it is queued or scheduled with a capability; what is added stems from such rows, scored with the reading of that row |
| Rebuild.RestoredIsFixed | src/platform/task_reconciler.py:196-210 | a state in which every row is restored is left as it is |
| Rebuild.RebuildIsIdempotent | src/platform/task_reconciler.py:196-210 | a second rebuild changes nothing |
| Rebuild.RedisState.RebuildFromMySql | src/platform/task_reconciler.py:155-210 | the loop over the rows on the stored state |
| RedisHA.CircuitBreaker.Fail | src/common/redis_ha.py:28-35 | one recorded failure |
| RedisHA.CircuitBreaker.Succeed | src/common/redis_ha.py:37-42 | one recorded success |
| RedisHA.CircuitBreaker.ShouldAllow | src/common/redis_ha.py:44-58 | the admission test and its move to half-open |
| RedisHA.OpensAtThreshold | src/common/redis_ha.py:28-58 | a fresh breaker opens exactly at the threshold-th failure in a row and then admits a call exactly after the timeout (clock readings not zero) |
| RedisHA.HalfOpenRound | src/common/redis_ha.py:28-58 | once the timeout is over a check makes an open breaker half-open, from where a success restores a fresh breaker and a failure opens it for another timeout |
| RedisHA.SuccessRestores | src/common/redis_ha.py:37-42 | a success in the closed or half-open state restores a fresh breaker |
| RedisHA.RedisHA.CallWithRetry | src/common/redis_ha.py:140-200 | the new state is that of the call specification; an admitted call is executed if and only if one of its attempts reaches Redis, else deferred if degradation and the command allow it, else it raises |
| RedisHA.RedisHA.TryUntilSuccess | src/common/redis_ha.py:149-179 | the retry loop stops at the first success and records each failure with its clock reading |
| RedisHA.CallOutcome | src/common/redis_ha.py:140-200 | which of executed, deferred, raised and nothing at all follows from admission, configuration and the answers of Redis, both ways, and what each does to the list, to Redis and to the connection flag |
| RedisHA.LocksItself | src/common/redis_ha.py:37-55 | after an executed call no later sequence of calls is ever admitted if and only if attempts failed first and the failures reached the threshold |
| RedisHA.OneLossLocksOut | src/common/redis_ha.py:37-55 | concrete configuration in which one lost attempt locks the client out for good |
| RedisHA.Redistributed | src/common/redis_ha.py:275-282 | wherever one visited operation goes, executed, failed and listed operations together stay the same |
| RedisHA.WalkConserves | src/common/redis_ha.py:275-282 | after any number of visits of any walk, finished or not, whatever Redis and the clock do, executed, failed and still listed operations are the same multiset, given at least one attempt per call |
| RedisHA.NoAttemptsDrop | src/common/redis_ha.py:148-149 | with no attempt configured a pass keeps exactly the operations visited before the first admitted check and drops the rest |
| RedisHA.GrowthlessEnds | src/common/redis_ha.py:185-187 | from a state in which nothing can be deferred again a pass ends, whatever Redis and the clock do |
| RedisHA.GrowingNeedNotEnd | src/common/redis_ha.py:185-198 | from every other state some Redis and some clock keep the pass going for ever |
| RedisHA.WalkNeverEnds | src/common/redis_ha.py:275-280 | with Redis away, the timeout elapsing between readings and a deferrable operation ahead, the end of the list is not reached after any number of visits |
| RedisHA.CalmWalkEnds | src/common/redis_ha.py:275-280 | a pass ends if no two clock readings of that pass are further apart than the reset timeout |
| RedisHA.RedisHA.RetryDegradedOperations | src/common/redis_ha.py:267-285 | every pass that ends, whatever the clock does: applied plus deferred operations are the same multiset before and after, given at least one attempt per call; the state and the count are those of the finished walk; nothing happens when disconnected or empty |
| KeyedBreaker.KeysTellHistory | src/platform/circuit_breaker.py:22-58 | the expiring keys always agree with the trips and streaks read off the history |
| KeyedBreaker.StepTells | src/platform/circuit_breaker.py:22-58 | one failure or success keeps that agreement |
| KeyedBreaker.RefusedExactlyAfterTrip | src/platform/circuit_breaker.py:61-80 | a request is refused exactly when a trip is less than open_duration old; half_open is never stored |
| KeyedBreaker.TripsAreApart | src/platform/circuit_breaker.py:29-40 | two trips are at least open_duration apart |
| KeyedBreaker.ProbesAreCounted | src/platform/circuit_breaker.py:72-78 | a half-open breaker admits halfOpenMax requests within the lifetime of its probe counter and no more |
| KeyedBreaker.HalfOpenSettles | src/platform/circuit_breaker.py:35-54 | a failure in the half-open state opens the breaker for open_duration, a success closes it |
| KeyedBreaker.CircuitBreaker.RecordFailure | src/platform/circuit_breaker.py:22-42 | the failure script on the keys and its answer |
| KeyedBreaker.CircuitBreaker.RecordSuccess | src/platform/circuit_breaker.py:45-58 | the success script on the keys and its answer |
| KeyedBreaker.CircuitBreaker.AllowRequest | src/platform/circuit_breaker.py:143-146 | the check script and the request decision |
| DurableCallbacks.RunKeepsInv | src/platform/task_completion_node.py:211-281 | over every interleaving all structures agree with one place per callback |
| DurableCallbacks.StepKeepsInv | src/platform/task_completion_node.py:211-281 | one enqueue, pop, post or settle by any processor keeps that agreement |
| DurableCallbacks.PostIsNew | src/platform/task_completion_node.py:250-264 | an attempt is posted only if it was not posted before |
| DurableCallbacks.EachCallbackInOnePlace | src/platform/task_completion_node.py:234-281 | each callback is in exactly one of pending, claimed, done, dead-letter; no attempt is posted twice; at most max posts, then done or dead |
| DurableCallbacks.EnqueuedHasPlace | src/platform/task_completion_node.py:222-228 | an enqueued callback is never lost |
| DurableCallbacks.DelayRange | src/platform/task_completion_node.py:220 | retry delays lie in [10, 600] s and never shrink |
| DurableCallbacks.NotBeforeItsDelay | src/platform/task_completion_node.py:220-241 | over every run: after attempt n was put into the retry set, a free processor pops it exactly once 10 s, doubled n - 1 times and at most 600 s, are over |
| DurableCallbacks.RetryQueue.EnqueueRetry | src/platform/task_completion_node.py:211-228 | adds the event with its due time |
| DurableCallbacks.RetryQueue.ProcessOne | src/platform/task_completion_node.py:247-278 | pop, post and settle of one event |
| DurableCallbacks.RetryQueue.ProcessDue | src/platform/task_completion_node.py:234-281 | a pass gives every fetched event its turn of pop, post and settle, counts its posts and leaves the processor holding nothing |
| DurableCallbacks.DueArePosted | src/platform/task_completion_node.py:247-279 | a pass posts every fetched event that is due |
| DurableCallbacks.PassIsRun | src/platform/task_completion_node.py:247-279 | a pass is a run of the protocol by one processor |
| Outbox.PostsAreBounded | src/services/callback_dispatcher.py:58-87 | for max_attempts of at least one, over every interleaving with replays and lost passes: at most max_attempts + replays + losses posts; a never replayed pending row has attempts left, a dead-letter row none |
| Outbox.LossesUnbound | src/services/callback_dispatcher.py:71-86 | any number of posts can leave the row new if no pass commits |
| Outbox.RunBounded | src/services/callback_dispatcher.py:58-87 | the invariant behind it, for every limit |
| Outbox.RunSpaced | src/services/callback_dispatcher.py:83-84 | failed posts with no replay or loss between them belong to passes at least the table delay apart |
| Outbox.RunDelivers | src/services/callback_dispatcher.py:72-81 | over every interleaving: a committed successful post leaves the row DELIVERED, a delivered row was posted successfully, and it is never posted again without a replay or the loss of that post |
| Outbox.ReplayIsDueAtOnce | src/services/callback_ops.py:66-71 | a replayed row is loaded by the next pass, whenever that is, with its count kept |
| Outbox.StepSpaced | src/services/callback_dispatcher.py:71-86 | one load, post, commit, loss or replay keeps the spacing |
| Outbox.DelayGrows | src/services/callback_dispatcher.py:15-21 | the table of delays, value by value; delays lie in [10, 3600] s, never shrink, and are at the cap exactly from the seventh attempt |
| Outbox.PassIsThreeSteps | src/services/callback_dispatcher.py:71-86 | a row of a pass is one load, post and commit of that row's history |
| Outbox.OutboxTable.ProcessOnce | src/services/callback_dispatcher.py:58-87 | one pass settles exactly the picked rows |
| Outbox.OutboxTable.ReplayDeadLetter | src/services/callback_ops.py:59-71 | a replay reopens the row, keeps its attempt count, and reports a missing row |
| Compensation.DualStore.WriteAtomic | src/common/transaction.py:129-177 | the Redis effect never precedes the MySQL write; returned record, stored record and cache are exactly determined by the answers; it raises if and only if MySQL fails, or with compensation both the Redis write and the compensation save fail |
| Compensation.DualStore.Park | src/common/transaction.py:160-198 | which of the two saves of a failed transaction remains, and when the failure surfaces |
| Compensation.DualStore.Save | src/services/compensation.py:290-317 | finished transactions are deleted, others stored, or nothing changes |
| Compensation.DualStore.Redo | src/services/compensation.py:206-267 | under any faults: when the record is gone or marked, the cache has the row's status where an entry exists, or all of the row for a creation; a status repair adds no entry; a failed command changes nothing |
| Compensation.DualStore.RepairTransaction | src/services/compensation.py:180-204 | the record is removed, or stored with one more retry only below max_retries, or left alone if and only if the repair raises; under any faults a record removed below max_retries left the cache in line with its row; at max_retries the cache is untouched; only this record and its task's entry change |
| Compensation.FailedRepairsAreBounded | src/services/compensation.py:182-204 | also with raising repairs in between, a transaction saved with no retries sees at most max_retries recorded failed ones, and its count is their number |
| Compensation.RepairsEnd | src/services/compensation.py:182-204 | in a history in which no repair raises the record is gone after at most max_retries + 1 repairs, fewer if it was counted up before |
| Compensation.DualStore.RepairRepeatedly | src/services/compensation.py:180-204 | repairing one record pass after pass follows such a history; without a raise it is removed in time, fault-free at once; with Redis down it stays unchanged for any number of repairs |
| Compensation.DualStore.RepairPending | src/services/compensation.py:81-84 | repairs every pending or failed record and no other; whatever is gone below max_retries left the cache in line with its row, under any faults; fault-free none is left |
| Compensation.DualStore.RestoreMissing | src/services/compensation.py:269-288 | missing entries of the picked rows are taken over from the rows, existing ones stay; fault-free none is missing |
| Compensation.DualStore.ScanAndRepair | src/services/compensation.py:79-95 | under any faults every cache entry is as before, taken over from its row, or has taken over its row's status; fault-free no transaction is left pending or failed and, within the batch size, every recent queued, running or scheduled row is cached |
| NodeSelection.SelectNodes | src/platform/node_registry.py:169-189 | if the idle GPU nodes suffice the selection does, dropping its last node misses, and no smaller set suffices; otherwise all are returned |
| NodeSelection.GreedyIsOptimal | src/platform/node_registry.py:180-189 | stopping the descending order at the first sufficient prefix is optimal |
| NodeSelection.FirstAreBest | src/platform/node_registry.py:180-188 | no k nodes have more GPUs than the first k in descending order |
| NodeSelection.IdleKeepsEligible | src/platform/node_registry.py:176-179 | the filter keeps exactly the nodes in state idle with a positive GPU count, as often as listed |
| NodeSelection.SortSorts | src/platform/node_registry.py:180 | the sort is descending and a permutation |
| NodeSelection.TakeUntilEnough | src/platform/node_registry.py:182-189 | takes the shortest sufficient prefix |

## Left out

- TopoSort.TopoSort: asks for distinct step names; with repeated names the name dictionary and the adjacency lists disagree and no schedule is promised.
- WaveConfluence.WaveIsConfluent: asks for steps that touch no key a sibling writes; the order of completed_steps within a wave stays open.
- DagExecution.RecordedIffProtected: for a step with a parsed condition or a mapped MAP list whether it runs depends on what others wrote; for those only `DagExecution.StartsAfterDependencies` holds.
- RedisHA.RedisHA.RetryDegradedOperations: asks that the walk ends, since a pass that does not end has no result; what holds during it is `RedisHA.WalkConserves`. A call that raises is taken not to have reached Redis.
- Lease.LeaseKey.HeartbeatTask: rounds cut short by an exception, which leave the failure counter alone, are not modelled.
- DurableCallbacks.RetryQueue.EnqueueRetry: attempts count from 1, as both callers pass them.
- Outbox.OutboxTable.ProcessOnce: its commit is taken to succeed, a lost pass is modelled for one row only; which eligible rows the query returns is a parameter, at most 50 of them; the order of posting is not part of the result.
- DurableCallbacks.EachCallbackInOnePlace: a callback is enqueued once and processors do not crash between popping and settling; members that are not JSON are not modelled.
- Outbox.RunSpaced: distances are between the clock readings of passes, not between the HTTP calls themselves.
- STREAMING steps, task cancellation, timeouts as such and the semaphores of the DAG engine; persisted contexts appear only as a save that may raise.
- Expiry of the queue keys, of cache entries, of done markers and of transaction records; step-level concurrency slots and the statistics cache of the queue.
- Forced eviction of lease keys and renewal of cron leadership, which is not atomic.
- Phases 1 and 3 of the reconciler, the database update of attempts and the write-back of failed tasks in phase 2, and a bound on the total number of requeues.
- The status text of a task that the reconciler looks at is taken to be in lower case, and a requeued task to have a capability.
- The order of rebuilt queue entries, which carry plain seconds instead of packed scores.
- Stability of the node sort, reservation and state transitions of nodes, and how effective GPU counts are derived.
- First-level inline callback retries and persistence of final task states.
- HTTP routes, command line, SDK, settings, metrics, tracing, logging and registries: plumbing around the core.
