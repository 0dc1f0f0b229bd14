# Agent load balancer and task scheduler

This project models two components of the HF DABBY agent backend.

- **`LoadBalancer`** keeps one pool of agent instances per agent type and hands out an instance per request. Four algorithms are supported: round robin, least connections, weighted round robin and lowest average response time. It also records release metrics, grows and shrinks pools by hand or by load, runs health checks, and reports statistics.
- **`TaskScheduler`** stores task records, keeps one pending one-shot timer per waiting task, and runs a task when its timer fires. A run dispatches on the task type and makes one agent call. It can also cancel or reschedule a waiting task and answer queries about the stored tasks.

Both are written in imperative form:

- **`Balancer.LoadBalancer`** holds the pools as a map from agent type to a sequence of instance records. It also holds the round-robin counters, the configured weights, the dict order of the types, and a supply of fresh agent handles.
- **`Scheduler.TaskScheduler`** holds the task map, the order in which ids were first stored, and the map of pending timers.

Each method is proved against pure functions in the other modules:

- `Common`: `Option`/`Result`, sums and decimal rendering.
- `Instances`: the instance record, constants and the health classifier.
- `Selection`: the four selection algorithms and their fairness lemmas.
- `Pools`: the pool operations, auto-scaling and statistics.
- `Tasks`: the task record, run dates, dispatch, outcomes and the session query.

Where the behaviour of `load_balancer.py` differs from what its docstrings suggest, the model follows the code:

- The weighted round-robin counter is incremented without any modulo. Only plain round robin stores `(counter + 1) % len`.
- Weights are arbitrary integers. `set_agent_weight` and `add_agent_instance` accept 0 or negative values.
- A total weight of 0 makes weighted selection fail (Python raises on modulo by zero), so `get_agent` can fail. With a negative total, a target that no running total exceeds falls back to the first candidate without advancing the counter.
- "Overloaded" overrides the latency verdict in a health check.

## Model

| member | source | states |
|---|---|---|
| Instances.AgentIdForInjective | load_balancer.py:82 | instance ids `type_n` of one type are equal exactly when their pool positions are |
| Instances.ClassifyHealth | load_balancer.py:258-284 | healthy iff the probe answered within 30 s and at most 10 connections; overloaded iff it answered and more than 10 connections; a failed probe gives unhealthy |
| Selection.PyMod | load_balancer.py:154 | Python's `%`: the result differs from `a` by a multiple of `b`; it lies in `[0, b)` for a positive divisor and in `(b, 0]` for a negative one |
| Selection.RoundRobinStep | load_balancer.py:136-141 | picks `counter % k` and stores the successor of the pick, so both stay below `k` |
| Selection.RoundRobinPicksAt | load_balancer.py:136-141 | the j-th of n consecutive round-robin picks on a stable pool is `(counter + j) % k` |
| Selection.RoundRobinFair | load_balancer.py:136-141 | k consecutive round-robin picks on a pool of k select every instance exactly once |
| Selection.Band | load_balancer.py:156-161 | the found index is the first whose running weight total exceeds the target; none is found only when no running total does |
| Selection.BandFound | load_balancer.py:154-161 | a target in `[0, total weight)` always falls into some instance's band |
| Selection.WeightedStep | load_balancer.py:147-164 | fails iff the total weight is 0; with a positive total it picks a candidate and adds 1 to the counter; with a negative total it does that or, when no band holds the target, falls back to index 0 with the counter kept |
| Selection.WeightedPicksAt | load_balancer.py:147-164 | the j-th of n consecutive weighted picks is the band of `(counter + j) mod total` |
| Selection.WeightedFair | load_balancer.py:147-164 | over total-weight consecutive picks with non-negative weights, each instance is chosen exactly its weight many times |
| Selection.WeightedExample | load_balancer.py:51-55 | weights 3, 2, 2 give the selection multiset {3, 2, 2} over 7 consecutive picks |
| Selection.FirstMinIndex | load_balancer.py:145 | the index of a minimal key, and the first such index (as Python's `min` returns) |
| Selection.Select | load_balancer.py:123-134 | the dispatch over the four algorithms: the pick is a candidate; it fails iff weighted with total weight 0; least connections and response time leave the counter alone |
| Selection.LeastConnectionsPicksMinimum | load_balancer.py:143-145 | the pick has the fewest active connections, and is the first candidate to have them |
| Selection.ResponseTimePicksMinimum | load_balancer.py:166-173 | the pick has the lowest average response time (0 for unused instances), and is the first candidate to have it |
| Pools.HealthyIndices | load_balancer.py:105 | the listed positions are exactly the healthy instances of the pool |
| Pools.HealthyIndicesInOrder | load_balancer.py:105 | the healthy candidates keep pool order |
| Pools.HealthyIndicesCount | load_balancer.py:317 | the healthy positions are listed once each, so their number is the number of healthy instances |
| Pools.Provision | load_balancer.py:101-111 | the pool grows by at most one instance and keeps its existing instances as a prefix |
| Pools.ProvisionCandidates | load_balancer.py:101-111 | after provisioning there is a healthy candidate; a pool with one is untouched; otherwise exactly one fresh instance is appended and is the only candidate |
| Pools.SelectOnTouchesCandidate | load_balancer.py:113-121 | a successful selection returns some candidate's agent and records the use on that same instance; a failed one is weighted and changes neither the pool nor the counter |
| Pools.ServeHandsOutHealthy | load_balancer.py:98-121 | a served agent belongs to an instance that was healthy before the call, or to the fresh instance created because none was; failure happens only for weighted selection and keeps the counter |
| Pools.FirstMaxIndex | load_balancer.py:183 | the index of a maximal key, and the first such index (as Python's `max` returns) |
| Pools.MostRecentIndex | load_balancer.py:183 | the first instance with the latest last-used time |
| Pools.ReleaseUndoesSelection | load_balancer.py:175-187 | releasing right after a selection updates the selected instance: the connection count is back and the response time is added |
| Pools.RemoveFirstByIdAt | load_balancer.py:195-209 | removal deletes the first instance carrying the id and keeps the rest in order |
| Pools.RemoveFirstByIdAbsent | load_balancer.py:195-209 | removing an id that is not in the pool leaves the pool unchanged |
| Pools.RemoveFirstByIdPresent | load_balancer.py:195-209 | removing a present id shortens the pool by one and takes exactly one copy of that id out |
| Pools.RemoveIdsEffect | load_balancer.py:231-234 | removing a list of present ids shortens the pool by its length and takes exactly those ids out |
| Pools.InsertByConnectionsSorted | load_balancer.py:229 | insertion keeps a pool sorted by active connections |
| Pools.SortByConnections | load_balancer.py:229 | the result is sorted by active connections and is a permutation of the pool |
| Pools.InsertByConnectionsStable | load_balancer.py:229 | an inserted instance comes first among the entries with its own connection count and leaves the other counts' entries as they were |
| Pools.SortByConnectionsStable | load_balancer.py:229 | the sort is stable: for every connection count, the entries with that count appear in the same order as in the pool |
| Pools.ScaleDownEffect | load_balancer.py:217-236 | scale-down never empties a pool, leaves it alone when asked for as many as it holds, and otherwise removes exactly the ids of the n least-connected instances |
| Pools.AutoScaleDecision | load_balancer.py:238-256 | grow iff average load is above 70% of the per-instance limit and the pool has fewer than 5; shrink iff it is not above 70%, below 30% and the pool has more than 1 |
| Pools.AutoScaleBounds | load_balancer.py:238-256 | auto-scaling changes a pool's size by at most one, never empties a non-empty pool and never grows past 5 |
| Pools.AutoScaledHasSize | load_balancer.py:238-256 | an auto-scaled pool has the size the decision prescribes |
| Pools.GrowCountStep | load_balancer.py:241-254 | counting one more listed pool adds one handle exactly when that pool grows |
| Pools.GrowCountSame | load_balancer.py:241-254 | maps whose listed pools get the same decisions grow the same number of pools over every prefix of the list |
| Pools.CheckedKeepsDecision | load_balancer.py:293-298 | a health check keeps every connection count, so the auto-scale decision of the checked pool is that of the pool |
| Balancer.ScaleProgressStart | load_balancer.py:241 | an auto-scale pass starts with nothing scaled and no handle drawn |
| Balancer.AutoScaleStep | load_balancer.py:241-256 | scaling the next listed pool extends the scaled prefix by one and draws one more handle exactly when that pool grows |
| Balancer.HandledUpToStep | load_balancer.py:241-254 | the next listed pool, carrying the next handles, extends the handled prefix by one |
| Balancer.ScaleProgressDone | load_balancer.py:241-256 | a finished pass leaves every pool auto-scaled, with one handle per grown pool, given out in list order |
| Balancer.CheckedScaled | load_balancer.py:293-298 | pools auto-scaled after a health check are auto-scaled versions of the checked pools |
| Balancer.CheckedHandled | load_balancer.py:293-298 | checked pools grow as many as the unchecked ones would, and the new handles sit at the same positions |
| Balancer.CheckedThenScaled | load_balancer.py:286-298 | auto-scaling the checked pools grows the pools, and hands out the handles, as auto-scaling the unchecked pools would |
| Pools.CheckedPool | load_balancer.py:292-295 | a health round changes only each instance's health, which becomes healthy exactly when its probe passes both limits |
| Pools.Reweighted | load_balancer.py:359-363 | every instance gets the new weight and nothing else changes |
| Pools.UniformWeightSelect | load_balancer.py:147-164 | after a uniform weight is set, weighted selection fails exactly when that weight is 0 |
| Pools.Mean | load_balancer.py:325-328 | with requests, mean times requests equals the total time; without, the mean is 0 |
| Pools.StatsOf | load_balancer.py:314-346 | per-type statistics: the instance count, the exact number of healthy instances, the summed connections and requests, the overall mean response time over requests (0 with none), and each instance's own line in pool order |
| Pools.InstanceStatsOf | load_balancer.py:332-343 | an instance's line carries its id, weight, connections, requests, health and last use, and its mean response time per request (0 with none) |
| Pools.SelectionStats | load_balancer.py:309-348 | after a selection, total connections and total requests each grow by one while instance and healthy counts stay |
| Balancer.LoadBalancer.constructor | load_balancer.py:43-58 | starts with the given algorithm, weights 3/2/2, no counters, and the three default pools of 2, 1 and 1 fresh instances |
| Balancer.LoadBalancer.InitializeAgentPools | load_balancer.py:68-77 | creates 2 consultant, 1 auditor and 1 tax instance, in that type order, drawing handles 0 to 3 |
| Balancer.LoadBalancer.CreateInitialInstances | load_balancer.py:72-77 | a new type's pool holds exactly the `count` fresh instances numbered 0 to count-1 and the type joins the order |
| Balancer.LoadBalancer.CreateAgentInstance | load_balancer.py:79-96 | appends one fresh healthy instance with id `type_len`, the configured weight (default 1) and a fresh handle |
| Balancer.LoadBalancer.SelectInstance | load_balancer.py:123-134 | the selection and the new counter are those of `Select`; nothing else changes |
| Balancer.LoadBalancer.WeightedRoundRobinSelect | load_balancer.py:147-164 | the pick and the counter are those of `WeightedStep` over the candidates' weights (a missing counter reads as 0) |
| Balancer.LoadBalancer.GetAgent | load_balancer.py:98-121 | result, pool, counter and handle supply are exactly those of provisioning and then selecting among the healthy instances (`Serve`); a type seen for the first time is appended to the type order, which is otherwise kept |
| Balancer.LoadBalancer.SelectAndRecord | load_balancer.py:113-121 | selects among the given healthy positions and records the use on the picked instance |
| Balancer.LoadBalancer.RecordSelection | load_balancer.py:116-119 | one more connection and request and the new last-used time on exactly the picked instance |
| Balancer.LoadBalancer.ProvisionPool | load_balancer.py:100-111 | the pool after the missing-pool and no-healthy fallbacks, which always has a healthy instance; a new type is appended to the type order, an existing one leaves it alone |
| Balancer.LoadBalancer.ReleaseAgent | load_balancer.py:175-187 | updates the most recently used instance of a non-empty pool; a missing or empty pool is left alone |
| Balancer.LoadBalancer.AddAgentInstance | load_balancer.py:189-193 | appends one fresh instance carrying the given weight and a fresh agent handle, and returns its id |
| Balancer.LoadBalancer.RemoveAgentInstance | load_balancer.py:195-209 | true iff the type's pool holds the id; the first instance with it is removed |
| Balancer.LoadBalancer.ScaleUp | load_balancer.py:211-215 | appends `count` fresh weight-1 instances, each with a new agent handle, and none for a count of 0 or less |
| Balancer.LoadBalancer.ScaleDown | load_balancer.py:217-236 | the pool becomes `ScaleDownPool` of the old one, so `ScaleDownEffect` applies |
| Balancer.LoadBalancer.RemoveInOrder | load_balancer.py:229-234 | removes the first `count` ids of the sorted list one at a time |
| Balancer.LoadBalancer.AutoScale | load_balancer.py:238-256 | every pool is auto-scaled by its own load, no type is added or dropped and the type order is kept; one handle is drawn per grown pool, and the grown pools receive them in type order |
| Balancer.LoadBalancer.AutoScalePool | load_balancer.py:245-256 | one pool is grown or shrunk by one, or kept, as its decision says; the handle supply advances by one exactly when it grows, and the new instance carries the handle drawn |
| Balancer.LoadBalancer.HealthCheckInstance | load_balancer.py:258-284 | the instance's health becomes `ClassifyHealth` of its probe and connections |
| Balancer.LoadBalancer.HealthCheckAll | load_balancer.py:292-295 | every pool becomes its health-checked version |
| Balancer.LoadBalancer.HealthCheckPool | load_balancer.py:294-295 | one pool becomes its health-checked version |
| Balancer.LoadBalancer.HealthCheckerRound | load_balancer.py:286-301 | one round of the background checker: health checks, then auto-scaling, on every pool; the type order is kept, and since a check changes no connection count, the pools that grow and the handles they receive are those the unchecked pools would give |
| Balancer.LoadBalancer.SetAlgorithm | load_balancer.py:350-353 | only the algorithm changes |
| Balancer.LoadBalancer.SetAgentWeight | load_balancer.py:355-365 | the configured weight is set and every existing instance of the type takes it |
| Balancer.LoadBalancer.Stats | load_balancer.py:309-348 | one statistics entry per agent type, computed by `StatsOf`, with the types in the order they were first seen |
| Tasks.ReplaceZ | scheduler.py:113 | the result contains no `Z` and is at least as long |
| Tasks.ReplaceZAppend | scheduler.py:113 | replacement distributes over concatenation |
| Tasks.ReplaceZIdentity | scheduler.py:113 | a time without `Z` is passed to the parser as it is |
| Tasks.ReplaceZIdempotent | scheduler.py:113 | replacing twice is replacing once |
| Tasks.ReplaceZOne | scheduler.py:113 | a single `Z` becomes `+00:00` and any other character stays; with `ReplaceZAppend` this is `str.replace('Z', '+00:00')` on every string |
| Tasks.RunDate | scheduler.py:111-117 | the parse of the time with `Z` read as `+00:00` when one is given and parses; one minute from now otherwise |
| Tasks.BuildCall | scheduler.py:171-235 | a file analysis is refused, with its message, iff its path or name is missing or empty; otherwise it analyses that file; every other type chats; every call carries the task's session |
| Tasks.DefaultPrompts | scheduler.py:206-235 | without parameters: a financial audit, the current year, a general financial consultation, and "Please provide analysis" |
| Tasks.ChatPrompts | scheduler.py:206-235 | a given `audit_type`, `tax_year` or `topic` is used in its prompt even when empty; every type outside the four named ones sends the `prompt` parameter, or "Please provide analysis" without one, whatever the other parameters |
| Tasks.Execution | scheduler.py:165-192 | a factory error fails the run with that error |
| Tasks.RefusedWithoutCall | scheduler.py:195-204 | a file analysis without both path and name fails with its message whatever the agent would do |
| Tasks.ExecutionFollowsAgent | scheduler.py:171-192 | an accepted task succeeds iff the agent returns, with its result; otherwise it fails with the agent's message |
| Tasks.Started | scheduler.py:161-163 | the record becomes running with its start time and nothing else changes |
| Tasks.Finished | scheduler.py:182-192 | the record becomes completed with result and time iff the run succeeded, otherwise failed with error and time |
| Tasks.RunEnds | scheduler.py:155-193 | a run never leaves its task scheduled or running, and keeps its id, session and start time |
| Tasks.SessionFilter | scheduler.py:257-262 | every listed record belongs to the session |
| Tasks.SessionFilterMembers | scheduler.py:257-262 | a record is listed exactly when it is stored and belongs to the session |
| Tasks.SessionFilterAppend | scheduler.py:257-262 | the query keeps the order of the records, part by part |
| Tasks.TimersAfterReschedule | scheduler.py:308-317 | as written: on a failed registration the task's timer is gone; otherwise it is replaced by the new time |
| Tasks.RescheduleCanDropTimer | scheduler.py:308-317 | a concrete failed registration that leaves a waiting task without a timer |
| Tasks.TimersAfterReplace | scheduler.py:308-317 | replacing in one registration keeps the task's timer whatever happens and changes no other timer |
| Tasks.ReplaceAgreesOnSuccess | scheduler.py:308-317 | when registration succeeds, the replacing and as-written orders agree |
| Scheduler.TaskScheduler.constructor | scheduler.py:27-34 | no tasks, no order and no timers |
| Scheduler.TaskScheduler.ScheduleTask | scheduler.py:99-153 | returns the drawn id and stores a scheduled record with the given type, session, agent and parameters (default empty) plus a timer for the run date; a failed registration stores it as failed with the error and no timer; the invariant is kept for a fresh id |
| Scheduler.TaskScheduler.ExecuteTask | scheduler.py:155-193 | an unknown id changes nothing; a known task is started and then finished with the outcome of its run, whatever its prior status |
| Scheduler.TaskScheduler.FireTimer | scheduler.py:135-143 | the timer is consumed, the task ends completed or failed, and the waiting-iff-timer invariant is kept |
| Scheduler.TaskScheduler.CancelTask | scheduler.py:268-287 | true iff the task exists, is scheduled and has its timer (under the invariant: iff it exists and is scheduled); then it is cancelled with its time and the timer removed; every false leaves records and timers unchanged |
| Scheduler.TaskScheduler.RescheduleTask | scheduler.py:289-328 | as written: true iff the task is scheduled, the time parses, its timer exists and registration succeeds; then the run date and reschedule time are set; a false leaves the record unchanged, but after a failed registration the timer is gone |
| Scheduler.TaskScheduler.RescheduleTaskReplacing | scheduler.py:289-328 | the same answer and record update, with the timer replaced in one step, so every false leaves records and timers unchanged and the invariant always holds |
| Scheduler.TaskScheduler.GetTaskStatus | scheduler.py:253-255 | the stored record for a known id, nothing otherwise |
| Scheduler.TaskScheduler.GetAllTasks | scheduler.py:264-266 | every record, in the order the ids were first stored |
| Scheduler.TaskScheduler.GetTasksBySession | scheduler.py:257-262 | only records of the session, in storage order |
| Scheduler.TaskScheduler.TasksBySessionExact | scheduler.py:257-262 | the session query lists exactly the stored records of that session |

## Left out

- Threads and the lock (load_balancer.py:48, 286-307): each locked method is one atomic step, and the endless health-check loop with its sleep is modelled as one round (`HealthCheckerRound`).
- Logging in both files: it has no effect on state.
- Clocks: `time.time()` and `datetime.now()` become a `now` parameter (real seconds in the balancer, integer seconds in the scheduler). The current year for the tax prompt is a parameter too.
- `AgentFactory` in the balancer: an agent object is a fresh handle drawn from a counter. A factory that raises for an unknown type is not modelled, so creating an instance never fails.
- The liveness probe of `_health_check_instance`: it is a `Probe` parameter, either a response time or a raised exception.
- The `else` fallback of `_select_instance` (load_balancer.py:133-134): it is unreachable for the four enum values.
- Pools.AutoScaleDecision: the float thresholds `10 * 0.7` and `10 * 0.3` become the exact integer comparisons `total * 10 > 7 * 10 * size` and `total * 10 < 3 * 10 * size`. In Python both products are exact (`7.0` and `3.0`). The only rounding is in the float division `total_connections / len(instances)` (load_balancer.py:247), and it can hide a mean just above or below a threshold only for pools of about 10^15 instances, far beyond the limit of 5.
- Float rounding in averages: statistics and response times use exact reals.
- APScheduler (scheduler.py:36-97, 237-251): the background scheduler, its job store, the coalescing and instance limits, start/stop and the daily cron jobs are left out. Only the map of pending timers is modelled.
- Scheduler.TaskScheduler.FireTimer: when a timer fires (its due time, misfires, up to 3 concurrent runs) is decided by the library. The model lets any pending timer fire.
- `datetime.fromisoformat`: it is an abstract parse function `string -> Option<Time>`. A time that fails to parse is `None`.
- `uuid.uuid4()`: it is the `freshId` argument of `ScheduleTask`. The invariant is proved for an id not yet stored; a reused id overwrites the stored record, as the dict does.
- The scheduler's `AgentFactory` and `agent.chat` / `agent.analyze_file`: the factory's error is an argument, and the agent is a function from an `AgentCall` to a returned value or a raised message.
- Tasks.BuildCall: parameter values and agent results are strings. A non-string value such as a numeric `tax_year` is represented by its rendering.
- Scheduler.TaskScheduler.ExecuteTask: the source reads the clock separately for `started_at` and `completed_at`/`failed_at`. The model stamps both with the same `now`.
- Scheduler.TaskScheduler.ScheduleTask: `created_at` and the default run date use the same `now`, and `scheduled_for` is kept as a time rather than its ISO text.

## Findings

| source | as written | input that shows it | evidently intended | confidence | as-written member | corrected member |
|---|---|---|---|---|---|---|
| scheduler.py:308-317 | `reschedule_task` removes the pending job before adding the new one. If `add_job` raises, the handler returns `False`, but the task stays `scheduled` with no pending job, so it never runs and `cancel_task` can no longer cancel it | a scheduled task with a pending timer, a parseable new time, and a registration that raises (`Tasks.RescheduleCanDropTimer`) | a refused reschedule leaves the task and its timer as they were, so that a task is scheduled iff its timer is pending | medium, not executed | Scheduler.TaskScheduler.RescheduleTask | Scheduler.TaskScheduler.RescheduleTaskReplacing |
