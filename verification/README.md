# Yasin-Core, verified

A Dafny 4.11 model of the parts of the Yasin-Core runtime that carry hard properties, with proofs
of those properties. `dafny verify dfyconfig.toml` checks the whole project.

How the program is read:

* Locks make each operation one atomic step; the steps of several threads interleave freely.
* Clock readings are parameters. User hooks, job targets, migration callbacks and factories are
  functions that return or raise.
* Objects whose methods update fields are classes here too, and each of their methods is proved
  equal to a pure step function; the theorems are about those functions, over every run.
* A job id stands for the job object wherever the program keeps a reference to one.

What is modelled, by file:

| files | part of the runtime |
|---|---|
| `JobProtocol`, `JobRouting`, `JobLaws`, `JobBudget`, `JobPlaces`, `JobSteps`, `JobTheorems`, `JobRuns`, `JobLateReport`, `Execution` | the job protocol: engine, local workers, distributed workers, central queue, recovery |
| `StartupOrder`, `Lifecycle`, `ServiceManager`, `Orchestrator` | Kahn's sort with a sorted ready list, and the service lifecycle on top of it |
| `Plugins` | dependency validation, loading and starting of plugins |
| `Container` | dependency injection: recursive resolution, the resolving stack, cached singletons |
| `Migration` | breadth-first search for a migration path, and running the path |
| `Calendar`, `Cron`, `CronTexts` | the proleptic Gregorian calendar, cron fields, and the search for the next run |
| `ScheduledRuns`, `ScheduleImage`, `Scheduler`, `SchedulerRuns` | scheduled jobs, their stored image, and the whole scheduler over runs of ticks |
| `ConfigTrees`, `Flattening`, `Configuration` | layered configuration: merge, lookup, assignment, flattening |
| `OrderedDicts`, `Memory`, `MemoryReads`, `MemoryStores` | the two expiring memories |
| `Versions` | version parsing, printing and order, requirement expressions, negotiation |
| `Prelude`, `Tallies`, `Texts`, `Graphs` | sequences, counting, strings, and walks in directed graphs |

Points where the code does not do what one would expect, each with its exact condition and an input
that shows it:

* Not every step keeps each job in exactly one place. `JobSteps.StepInvIff` says of all steps which
  ones do; those that may not, each with an instance on a state the protocol reaches:
  a late failure report after recovery puts the job in two places (`JobLateReport.LateReportDoubles`),
  a late pickup revives a finished job in no place (`LatePickupRevives`), an outcome reported directly
  for a job that still waits on its worker lets it run afterwards (`ReportedJobRuns`), assigning or
  submitting a job that has a place doubles it (`AssignmentDoubles`, `ResubmissionDoubles`),
  unregistering a worker, registering another one under its id, shutting the manager down and clearing
  the central queue lose unfinished jobs (`UnregisteringLoses`, `ShutdownLoses`, `ClearingQueueLoses`),
  and `clear_jobs` strands a cancelled job that has a place (`ClearingStrands`).
* A job cancelled before it began can still end COMPLETED when its worker reports so regardless
  (`JobTheorems.StepKeepsDoomedIff`, `JobLateReport.ReportOverridesCancel`).
* Setting the priority of a job does not move the entry it already has in the central queue
  (`JobTheorems.TakesTheFirst`, `JobTheorems.LatePriorityIgnored`).
* A second start over services that are already ACTIVE can leave an ACTIVE service above a FAILED
  one (`Lifecycle.RestartClosedIff`, `Lifecycle.SecondStartLeavesGap`); so can stopping,
  unloading or registering again one plugin (`Plugins.StopKeepsClosedIff`, `Plugins.UnloadKeepsClosedIff`,
  `Plugins.RegisterKeepsActiveIff`, `Plugins.RegisterKeepsLoadIff`, `Plugins.StoppingUnderneath`).
* A trigger whose cron search raises leaves a stale schedule image (`ScheduleImage.TriggerKeepsImageIff`,
  `ScheduleImage.MalformedCronLeavesStaleImage`, `Cron.OneWordRaises`).
* `get` walks into a dictionary-valued default (`ConfigTrees.GetIsLookupIff`,
  `ConfigTrees.GetWalksIntoDefault`), and merging is not associative (`ConfigTrees.MergeAssociatesIff`,
  `ConfigTrees.ScalarBetweenHides`).
* With a clock that goes back the two memories can differ (`Memory.SameAnswersIff`,
  `Memory.ClockGoingBackShows`; step by step `Memory.SameEntriesIff` and `Memory.DifferenceShows`).
* A caret range also admits the prereleases of its upper limit, as they compare below it
  (`Versions.CaretMeaning`, `Versions.CaretAdmitsPrereleases`).

## Model

| member | source | states |
|---|---|---|
| JobTheorems.ExactlyOnePlace | yasin_core/execution/distributed.py:384-575 | over every run whose steps are harmless (next row), a job is in exactly one place or finished; node queues are duplicate-free parts of the held jobs; OFFLINE nodes are empty |
| JobSteps.StepInvIff | yasin_core/execution/distributed.py:328-575 | every step of the system keeps the invariant behind this if and only if it is harmless, which for each step is a condition on the state before it: always for fetches, sweeps, heartbeats, pauses, local processing, priority changes, cancels, and pickups and outcomes by the runner of the worker that holds the job; the rows below for the others |
| JobSteps.AssignKeepsInvIff | yasin_core/execution/distributed.py:384-416 | a manual assignment keeps that invariant if and only if the job is in no place and the worker has no stale hand on it |
| JobSteps.SubmitKeepsInvIff | yasin_core/execution/engine.py:71-122 | a submission keeps it if and only if the job is new, or is in no place and the worker it goes to has no stale hand on it |
| JobSteps.ReportKeepsInvIff | yasin_core/execution/distributed.py:456-527 | a report by whatever worker keeps it if and only if the worker or the job is unknown, or it says that the job goes on and the job is in some place, or it asks for a retry and the job is in no place, without a hand of that worker, whose node is not OFFLINE, or it is another outcome and the job does not wait in that worker's queue |
| JobSteps.HeldReportKeepsInvIff | yasin_core/execution/distributed.py:456-527 | an outcome reported directly by the worker that holds the job keeps it if and only if it asks for no retry and the job does not wait in that worker's queue any more |
| JobSteps.LateReportKeepsInvIff | yasin_core/execution/distributed.py:242-247 | the outcome reported by a runner whose worker does not hold the job any more keeps it if and only if the worker or the job is unknown by now, or it asks for no retry, or the job is in no place, the node is not OFFLINE and the worker has no second hand on the job |
| JobSteps.LatePickupKeepsInvIff | yasin_core/execution/distributed.py:232-243 | a late pickup, by a worker that no longer holds the job it fetched, keeps it if and only if the worker or the job is unknown by now, or the job is cancelled or still in some place |
| JobSteps.UnregisterKeepsInvIff | yasin_core/execution/distributed.py:342-349 | unregistering a worker keeps it if and only if every job it holds is finished, as cancelled ones are |
| JobSteps.RegisterKeepsInvIff | yasin_core/execution/distributed.py:328-340 | so does registering a worker, under an id that may be taken |
| JobSteps.DropWorkersKeepsInvIff | yasin_core/execution/distributed.py:310-326 | the manager's shutdown keeps it if and only if all jobs the workers hold are finished |
| JobSteps.ClearJobsKeepsInvIff | yasin_core/execution/engine.py:177-183 | `clear_jobs` keeps it if and only if no finished job is still in some place |
| JobSteps.ClearQueueKeepsInvIff | yasin_core/execution/queue.py:61-70 | clearing the central queue keeps it if and only if all jobs waiting there are finished |
| JobLateReport.LateReportDoubles | yasin_core/execution/distributed.py:499-575 | a reachable state where a recovered job's old worker reports a failure, after which the job is in two places |
| JobLateReport.LatePickupRevives | yasin_core/execution/distributed.py:232-243 | a reachable state where a recovered job was completed locally and its old worker then picks it up: it is RUNNING again, in no place, and started twice |
| JobLateReport.AssignmentDoubles | yasin_core/execution/distributed.py:384-416 | a reachable state where assigning a waiting job once more puts it into its node's queue twice |
| JobLateReport.UnregisteringLoses | yasin_core/execution/distributed.py:342-349 | a reachable state where unregistering a worker leaves its QUEUED job in no place |
| JobLateReport.ReportedJobRuns | yasin_core/execution/distributed.py:456-527 | a reachable state where a worker reports a job COMPLETED that waits in its queue: the copy stays, is fetched, marked RUNNING and started |
| JobLateReport.ReportOverridesCancel | yasin_core/execution/distributed.py:456-527 | a reachable state where a cancelled job that has not begun becomes COMPLETED by a harmless report |
| JobLateReport.ResubmissionDoubles | yasin_core/execution/engine.py:71-122 | a reachable state where submitting a waiting job again puts it into its node's queue twice |
| JobLateReport.ClearingStrands | yasin_core/execution/engine.py:177-183 | a reachable state where `clear_jobs` forgets a cancelled job its node still holds |
| JobLateReport.ShutdownLoses | yasin_core/execution/distributed.py:310-326 | a reachable state where the manager's shutdown leaves a QUEUED job in no place |
| JobLateReport.ClearingQueueLoses | yasin_core/execution/queue.py:61-70 | the same for a job in a central queue that is cleared |
| JobBudget.ExecutionsBounded | yasin_core/execution/distributed.py:499-575 | over every run whatsoever, target starts plus waiting copies are at most placements plus retries plus recoveries, and retries never exceed the limit; so executions are bounded |
| JobTheorems.CancelledNeverStarts | yasin_core/execution/models.py:192-203 | after a cancel the flag stays set and the target never starts again, over every run |
| JobTheorems.CancelledEndsCancelled | yasin_core/execution/distributed.py:232-247 | a job cancelled before it began never becomes COMPLETED or FAILED in a continuation of harmless steps none of which concludes it by a report regardless, and is CANCELLED once it is in no place |
| JobTheorems.StepKeepsDoomedIff | yasin_core/execution/distributed.py:456-527 | a harmless step leaves such a job that way if and only if it is not a report, heard by the manager, that the job completed or failed for the last time |
| JobTheorems.LocalPickupEndsCancelled | yasin_core/execution/worker.py:47-54 | a cancelled job picked up by a local worker ends CANCELLED and in no place |
| JobTheorems.RemotePickupEndsCancelled | yasin_core/execution/distributed.py:232-240 | a cancelled job picked up by the worker holding it ends CANCELLED and in no place |
| JobTheorems.TakesTheFirst | yasin_core/execution/queue.py:21-47 | after every run, priority changes included, a local worker takes the job of an entry that no other entry beats on priority, then age, then order of insertion; an entry has its job's age, and its priority as long as that was never set |
| JobTheorems.LatePriorityIgnored | yasin_core/execution/models.py:87-90 | a job raised above another one after both were queued is still taken after it |
| JobTheorems.ReachedStep | yasin_core/execution/distributed.py:384-575 | the reachable states are closed under the harmless steps |
| JobRouting.ChoiceMeans | yasin_core/execution/distributed.py:418-446 | the worker chosen for a job is active and reports the capability asked for, else the one of its named target, else "default", if some active worker does; else it is one that reports "default"; else any active one; of that class none holds fewer jobs and none registered earlier as few; there is no choice exactly when no worker is active |
| JobRouting.RouteMeans | yasin_core/execution/engine.py:93-116 | an active worker that was asked for is always taken; else a job with a capability, or whose named target some active worker reports, goes to the worker chosen for that; else it goes nowhere but to the central queue |
| JobLaws.SubmitMeans | yasin_core/execution/engine.py:71-122 | a submitted job is tracked and QUEUED, and is last in the queue of the worker it is routed to, which becomes its worker, or in the central queue; nothing else changes |
| JobLaws.AssignMeans | yasin_core/execution/distributed.py:384-416 | a manual assignment makes the job QUEUED, last in the worker's queue and held by it, exactly when the worker is active and the job tracked |
| JobLaws.LocalRunBegins | yasin_core/execution/worker.py:47-58 | a job that is cancelled ends CANCELLED and does not start; any other is RUNNING, in a thread's hands, and started once more |
| JobLaws.LocalRunEnds | yasin_core/execution/worker.py:74-103 | a return leaves the job COMPLETED; a raise with retries left puts it back into the central queue, QUEUED and one retry up, with its own priority and age behind equal entries; a raise without retries left leaves it FAILED, in no queue |
| JobLaws.RemoteRunBegins | yasin_core/execution/distributed.py:232-241 | a cancelled job is reported CANCELLED and let go, and does not start; any other starts, and is RUNNING if the report is heard |
| JobLaws.RemoteRunEnds | yasin_core/execution/distributed.py:242-247 | a return leaves the job COMPLETED and let go; a raise with retries left puts it at the back of the same worker's queue, one retry up; a raise without leaves it FAILED and let go; of an unknown worker or an untracked job nothing is heard |
| JobLaws.ReportMeans | yasin_core/execution/distributed.py:456-527 | what a report by any worker does to the record, the queue and the dictionary |
| JobLaws.FetchMeans | yasin_core/execution/distributed.py:220-230 | the runner takes the first job of the queue, and the rest stays in order |
| JobLaws.CancelMeans | yasin_core/execution/engine.py:155-168 | the flag is set and the job CANCELLED exactly when it is tracked and not finished |
| JobLaws.InsertMeans | yasin_core/execution/queue.py:21-31 | an entry goes ahead of the first one it beats, the others keep their order |
| JobLaws.RegisteringMeans | yasin_core/execution/distributed.py:328-349 | a worker that registers is a new node, in the place of one of that id or behind all others; one that leaves is gone and the others keep their order |
| JobLaws.ClearingMeans | yasin_core/execution/engine.py:177-183 | clearing keeps exactly the unfinished jobs tracked and no record changes |
| JobLaws.PausingMeans | yasin_core/execution/distributed.py:154-172 | pausing makes a worker SUSPENDED and resuming ACTIVE, whatever it was, and nothing else changes |
| JobLaws.HeartbeatMeans | yasin_core/execution/distributed.py:373-382 | a heartbeat is noted for every known worker; a REGISTERED or OFFLINE one becomes ACTIVE and no other changes its status |
| JobLaws.SweepMeans | yasin_core/execution/distributed.py:529-575 | a sweep makes exactly the ACTIVE workers silent for the timeout SUSPENDED and exactly the SUSPENDED ones silent for twice the timeout OFFLINE and empty; while every job is in one place, each job of a lost worker is QUEUED then, of no worker, once in the central queue and on no node, and every other job is as before |
| JobLaws.RequeueStamps | yasin_core/execution/distributed.py:559-575 | the recovered jobs enter the central queue with their own priority and age, stamped in the order in which the node held them |
| JobRuns.OutcomeIsThatOfTheLastRun | yasin_core/execution/worker.py:74-103 | over every run in which nobody but its runners reports an outcome of a job, it is COMPLETED only if its last run returned, FAILED only if its last run raised with no retries left, CANCELLED only if it was cancelled |
| JobRuns.FinishedAsItsLastRun | yasin_core/execution/distributed.py:232-247 | over every such run of harmless steps a job that is in no place any more and was not cancelled has run, and is COMPLETED if and only if its last run returned, FAILED if and only if that one raised |
| JobRuns.StartsEndOnce | yasin_core/execution/worker.py:56-103 | over every run, the starts of a job are its runs that ended plus those that still run |
| JobRuns.PunctualStaysActive | yasin_core/execution/distributed.py:529-551 | a worker each of whose heartbeats reaches every sweep younger than the timeout stays ACTIVE |
| JobRuns.SilentGoesOffline | yasin_core/execution/distributed.py:529-575 | a worker nothing is heard of is OFFLINE once one sweep found it silent for the timeout and a later one for twice the timeout, and holds nothing when the steps were harmless |
| JobRuns.FirstInFirstOut | yasin_core/execution/distributed.py:220-230 | over every run that does not empty a worker's queue, its runner takes the jobs in the order in which they were queued, retries included |
| Execution.Job.Cancel | yasin_core/execution/models.py:192-203 | refused exactly for a finished job; otherwise sets the flag and CANCELLED |
| Execution.Job.SetPriority | yasin_core/execution/models.py:87-90 | sets the priority and nothing else |
| Execution.JobQueue.Put | yasin_core/execution/queue.py:21-31 | the entry takes its place by priority, creation time and counter |
| Execution.JobQueue.Get | yasin_core/execution/queue.py:33-47 | takes the first entry |
| Execution.WorkerNode.UpdateHeartbeat | yasin_core/execution/distributed.py:41-47 | revives a REGISTERED or OFFLINE node and no other |
| Execution.ExecutionCore.SubmitJob | yasin_core/execution/engine.py:71-122 | performs the protocol's submit step: registers, then routes by worker, capability, target, or the central queue |
| Execution.ExecutionCore.FindRoute | yasin_core/execution/engine.py:93-116 | the routing decision |
| Execution.ExecutionCore.ChooseWorker | yasin_core/execution/distributed.py:418-446 | the first least-loaded active worker with the capability, else with "default", else any active one; `JobRouting.ChoiceMeans` says so of the choice it computes |
| Execution.ExecutionCore.AssignJob | yasin_core/execution/distributed.py:384-416 | succeeds exactly for a tracked job and an active worker; then the job is held and queued there |
| Execution.ExecutionCore.ReportJobStatus | yasin_core/execution/distributed.py:456-527 | performs the protocol's report step: status, release on a final report, re-queue on a failure with retries left |
| Execution.ExecutionCore.FetchJob | yasin_core/execution/distributed.py:220-230 | moves the first job of the node's queue into its runner's hands |
| Execution.ExecutionCore.BeginExecution | yasin_core/execution/distributed.py:232-241 | reports RUNNING, then starts the target exactly when the job is not cancelled |
| Execution.ExecutionCore.FinishExecution | yasin_core/execution/distributed.py:242-247 | reports how the target ended |
| Execution.ExecutionCore.BeginProcessing | yasin_core/execution/worker.py:47-58 | starts the target, as RUNNING, exactly when the job is neither cancelled nor CANCELLED; else it is CANCELLED |
| Execution.ExecutionCore.FinishProcessing | yasin_core/execution/worker.py:74-103 | COMPLETED after a return, QUEUED with one retry more after a raise with retries left, FAILED after a raise without |
| Execution.ExecutionCore.CancelJob | yasin_core/execution/engine.py:155-168 | performs the protocol's cancel step |
| Execution.ExecutionCore.RecoverWorkerJobs | yasin_core/execution/distributed.py:553-575 | empties the node and puts each job it held back into the central queue |
| Execution.ExecutionCore.MonitorWorkers | yasin_core/execution/distributed.py:529-551 | one sweep: stale ACTIVE nodes become SUSPENDED, dead SUSPENDED ones OFFLINE and recovered, in registration order |
| Execution.ExecutionCore.RegisterWorker | yasin_core/execution/distributed.py:328-340 | a fresh REGISTERED node under the id, replacing one that was there |
| Execution.ExecutionCore.UnregisterWorker | yasin_core/execution/distributed.py:342-349 | the node leaves the manager, its jobs with it |
| Execution.ExecutionCore.ClearFinished | yasin_core/execution/engine.py:177-183 | the registry keeps exactly the unfinished jobs |
| ServiceManager.RuntimeServiceManager.GetStartupOrder | yasin_core/runtime/service_manager.py:81-120 | terminates; a missing dependency is reported exactly when there is one, a cycle exactly when the registered dependencies have one, and otherwise the result is the lexicographically least order with every dependency first |
| ServiceManager.RuntimeServiceManager.FindMissing | yasin_core/runtime/service_manager.py:87-93 | finds a missing dependency exactly when there is one: the first one declared, in registration order |
| StartupOrder.GreedyIsLeast | yasin_core/runtime/service_manager.py:104-115 | taking the least ready service each time gives the least of all dependency-respecting orders |
| StartupOrder.StuckMeansCyclic | yasin_core/runtime/service_manager.py:117-118 | when nothing of what is left is ready, the dependencies have a cycle |
| StartupOrder.OrderMeansAcyclic | yasin_core/runtime/service_manager.py:117-120 | a full order exists only without cycles |
| ServiceManager.RuntimeServiceManager.Initialize | yasin_core/runtime/service_manager.py:122-146 | the services before the first hook that raises, in startup order, end ACTIVE, its own FAILED, and no other changes; the error names it; nothing happens when already initialised or when there is no order |
| ServiceManager.RuntimeServiceManager.Shutdown | yasin_core/runtime/service_manager.py:148-172 | a service becomes STOPPED exactly if it was ACTIVE and its hook returns, and no other changes; in reverse startup order, or reverse registration order when there is none |
| ServiceManager.RuntimeServiceManager.UnregisterService | yasin_core/runtime/service_manager.py:36-59 | refused exactly for an unknown service or one that some service depends on; keeps the dependencies registered and ACTIVE closed |
| Lifecycle.FirstStart | yasin_core/runtime/service_manager.py:133-143 | from nothing ACTIVE every hook runs while its dependencies are ACTIVE, ACTIVE stays closed under dependencies, and without a raising hook all end ACTIVE |
| Lifecycle.StartMeans | yasin_core/runtime/service_manager.py:133-143 | what a start does to every service, and which one it reports |
| Lifecycle.CallsMean | yasin_core/runtime/service_manager.py:133-143 | the hooks run are those of the services started and of the one that failed, in the order given |
| Lifecycle.RestartClosedIff | yasin_core/runtime/service_manager.py:133-143 | over services already ACTIVE, a start that fails at one service keeps ACTIVE closed if and only if no ACTIVE service depends on that one |
| Lifecycle.SecondStartLeavesGap | yasin_core/runtime/service_manager.py:122-146 | three services, a first start that fails at the last and a second that fails at the first: an ACTIVE service is left above a FAILED one |
| Lifecycle.StopSafe | yasin_core/runtime/service_manager.py:158-169 | when no hook raises, each service is shut down after all its dependents left ACTIVE |
| Lifecycle.StopCallsMean | yasin_core/runtime/service_manager.py:161-169 | the shutdown hooks run are those of the ACTIVE services, each once, in the order given |
| Orchestrator.RuntimeOrchestrator.Start | yasin_core/core/orchestrator.py:71-113 | from a manager with nothing ACTIVE: ends RUNNING with all services ACTIVE, or FAILED with ACTIVE closed under dependencies; every hook ran with its dependencies ACTIVE |
| Orchestrator.RuntimeOrchestrator.Stop | yasin_core/core/orchestrator.py:115-160 | reaches STOPPED if and only if no service but one named "services" stays ACTIVE; without raising hooks, dependents stop before their dependencies |
| Plugins.PluginRegistry.ValidateDependencies | yasin_core/plugins/registry.py:183-217 | terminates on every graph; returns if and only if every reachable plugin is registered and compatible and no cycle is reachable |
| Plugins.PluginRegistry.Validate | yasin_core/plugins/registry.py:183-217 | the recursion over the shared visited and stack sets; its error names a reachable culprit of that kind |
| Plugins.PluginRegistry.LoadPlugin | yasin_core/plugins/registry.py:219-259 | a REGISTERED plugin is loaded if and only if every plugin reachable from it is registered and compatible, no cycle is reachable, and both load hooks return for every plugin reached through REGISTERED ones; then all of these are LOADED, else it is FAILED; returning or raising, keeps "no LOADED, STOPPED or ACTIVE plugin has a dependency still REGISTERED"; each plugin's hooks run at most once, after those of the dependencies it loads |
| Plugins.PluginRegistry.StartPlugin | yasin_core/plugins/registry.py:286-316 | on acyclic dependencies terminates; returns if and only if every plugin that is not ACTIVE and is reached through such plugins is registered, has a start hook that returns and, if still REGISTERED, can be loaded; then all of them end ACTIVE; returning or raising, keeps every dependency of an ACTIVE plugin ACTIVE |
| Plugins.PluginRegistry.StopPlugin | yasin_core/plugins/registry.py:318-340 | only an ACTIVE plugin changes, to STOPPED, or to FAILED with an error of its own |
| Plugins.PluginRegistry.UnloadPlugin | yasin_core/plugins/registry.py:261-284 | a plugin that is not REGISTERED, once stopped if it was ACTIVE, goes back to REGISTERED, or to FAILED at the first hook that raises |
| Plugins.StopKeepsClosedIff | yasin_core/plugins/registry.py:318-340 | stopping a plugin keeps ACTIVE closed if and only if no other ACTIVE plugin depends on it |
| Plugins.UnloadKeepsClosedIff | yasin_core/plugins/registry.py:261-284 | unloading a plugin keeps loaded plugins over loaded ones if and only if no other loaded, stopped or active plugin depends on it |
| Plugins.RegisterKeepsActiveIff | yasin_core/plugins/registry.py:51-68 | registering a plugin under a name that may be taken keeps ACTIVE closed if and only if no other ACTIVE plugin depends on that name |
| Plugins.RegisterKeepsLoadIff | yasin_core/plugins/registry.py:51-68 | and keeps loaded plugins over loaded ones if and only if no other loaded, stopped or active plugin does |
| Plugins.StoppingUnderneath | yasin_core/plugins/registry.py:261-340 | two running plugins, one on top of the other: stopping or unloading the lower one breaks both closure properties |
| Plugins.PluginRegistry.Unregister | yasin_core/plugins/registry.py:69-106 | refused exactly for an unknown plugin or one another plugin depends on; keeps both closure properties |
| Container.DIContainer.Resolve | yasin_core/di/container.py:87-130 | terminates; returns if and only if nothing broken and no cycle is reachable through uncached registrations; then every reachable singleton is cached; the factory of a singleton that gives it an object ran once if the key became cached and not at all otherwise, a raising one ran once if the resolution ended with it and not at all otherwise; what a factory builds was not there before, and got its arguments by the rules of the next row; the stack is restored on every exit |
| Container.DIContainer.Arguments | yasin_core/di/container.py:201-240 | each parameter gets what its class provides if that is registered, else what its name provides if that is, else its default; an error about a parameter only when none of the three is there |
| Container.DIContainer.Keep | yasin_core/di/container.py:108-112 | a singleton's product is cached, a transient's is not |
| Container.SoundIsResolvable | yasin_core/di/container.py:87-130 | reaching only buildable keys and no cycle among them is the same as reaching nothing broken and no cycle at all (first half) |
| Container.ResolvableIsSound | yasin_core/di/container.py:87-130 | the second half |
| Container.EffectsCompose | yasin_core/di/container.py:201-240 | two resolutions in a row are one: nothing is cached before what it needs, and the factory of each singleton that it gives an object still ran at most once |
| Container.RaisedCompose | yasin_core/di/container.py:201-240 | after a resolution in which nothing raised, a second one leaves every raising factory with the runs of the second: one if it ended that, else none |
| Container.SoundSame | yasin_core/di/container.py:93-96 | caching resolved singletons changes nothing about which keys can be resolved |
| Container.ExplainedIsUnresolvable | yasin_core/di/container.py:98-128 | every error names a reason for which the key cannot be resolved |
| Migration.SchemaMigrator.FindMigrationPath | yasin_core/compatibility/migration.py:26-57 | terminates; returns a chain of registered jumps of minimum length, of those the one that, wherever it parts from another, takes the jump registered earlier; and raises if and only if there is no chain |
| Migration.SchemaMigrator.Search | yasin_core/compatibility/migration.py:40-55 | the breadth-first loop finds that walk or shows there is none |
| Migration.SchemaMigrator.AdjacencyList | yasin_core/compatibility/migration.py:33-38 | lists each version's targets in registration order |
| Migration.SchemaMigrator.Migrate | yasin_core/compatibility/migration.py:59-76 | the composition of a minimum-length chain's callbacks, stopping at the first that raises |
| Migration.ComposeMeans | yasin_core/compatibility/migration.py:67-76 | the documents a chain goes through, each the outcome of its jump's callback on the one before, up to the end or to the callback that raises, which the error names |
| Migration.ChainIffReaches | yasin_core/compatibility/migration.py:26-57 | chains of registered jumps exist exactly between versions connected by walks |
| Cron.FieldIsUnion | yasin_core/execution/scheduler.py:13-38 | a field means exactly the union of its parts' arithmetic progressions, and raises exactly when a part is malformed |
| Cron.FieldInside | yasin_core/execution/scheduler.py:13-38 | with every bound inside the range, all values are |
| Cron.RangeIsSpan | yasin_core/execution/scheduler.py:37-37 | stepping through a range, up or down, visits exactly the terms of the progression before its end |
| Cron.ParseCronField | yasin_core/execution/scheduler.py:13-38 | computes that set, the shortcut for `*` included |
| Cron.GetNextCronTime | yasin_core/execution/scheduler.py:41-81 | the least of the next 100,000 minutes that matches, or the error the search ends in |
| Cron.OutcomeUnique | yasin_core/execution/scheduler.py:41-81 | the parsed expression and the base time decide the outcome |
| Cron.RaisesIffNoMatch | yasin_core/execution/scheduler.py:66-81 | on a well-formed expression it raises if and only if none of the next 100,000 minutes matches |
| Cron.LeavesCalendarAtItsEnd | yasin_core/execution/scheduler.py:48-81 | the search raises for want of a calendar only when the window leaves the year 9999, and finds nothing beyond it |
| Cron.StarMonthAndWeekdaySucceeds | yasin_core/execution/scheduler.py:41-81 | with `*` for month and weekday it always succeeds, at most 87,840 minutes after the base |
| Cron.RunWithin61Days | yasin_core/execution/scheduler.py:66-79 | a matching minute comes within 61 days, whatever the days of the month |
| Cron.RunWithinAWeek | yasin_core/execution/scheduler.py:66-79 | with every day of the month and month allowed, a matching minute comes within a week |
| Cron.SixtyOneDaysAreNeeded | yasin_core/execution/scheduler.py:66-79 | for the last minute of the 31st the search from the 31st of March ends at the 31st of May and no earlier minute matches: the bound cannot be lowered |
| Cron.FindsTheEarliest | yasin_core/execution/scheduler.py:66-81 | what the search finds matches, and of all minutes of the calendar after the base none that matches is earlier |
| Cron.OneWordRaises | yasin_core/execution/scheduler.py:52-54 | an expression of one word raises |
| CronTexts.NumberRead | yasin_core/execution/scheduler.py:26-35 | a number in decimal digits is read as itself, whatever white space is around it |
| CronTexts.NegativeRead | yasin_core/execution/scheduler.py:26-35 | with a minus sign in front, as its opposite |
| CronTexts.ForeignCharacterRaises | yasin_core/execution/scheduler.py:26-35 | a text with any other character is no number |
| CronTexts.FieldMeans | yasin_core/execution/scheduler.py:13-38 | a field written with stars, numbers, ranges and steps stands for exactly what its parts say, and raises exactly when a step is zero |
| CronTexts.ExpressionMeans | yasin_core/execution/scheduler.py:41-79 | an expression of five such fields is parsed, and a minute matches exactly when its minute, hour, day, month and weekday are named, Sunday being 0 and 7 |
| CronTexts.NextIsTheEarliestNamed | yasin_core/execution/scheduler.py:41-81 | what the search returns is the earliest minute after the base that the expression names |
| Calendar.KnownWeekdays | yasin_core/execution/scheduler.py:68-69 | the first of January of year 1 is a Monday |
| Calendar.MonthLengths | yasin_core/execution/scheduler.py:67-79 | the lengths of the months in every year |
| Calendar.FourCenturies | yasin_core/execution/scheduler.py:67-79 | the calendar repeats after 400 years of 146,097 days |
| Calendar.DayComesRound | yasin_core/execution/scheduler.py:67-79 | a day of the month comes round within 61 days, and 61 only from the same day |
| Calendar.WeekdayLater | yasin_core/execution/scheduler.py:68-69 | weekdays, read off the proleptic Gregorian ordinal, follow one another day by day |
| ScheduledRuns.NextRunMeansLive | yasin_core/execution/scheduler.py:171-204 | over every run with a monotone clock a set next run time means not cancelled and below the maximum |
| ScheduledRuns.TriggersBounded | yasin_core/execution/scheduler.py:417-453 | triggers never exceed the maximum number of runs |
| ScheduledRuns.OneShotFiresOnce | yasin_core/execution/scheduler.py:417-453 | a job with neither interval nor cron is triggered at most once |
| ScheduledRuns.IntervalBound | yasin_core/execution/scheduler.py:417-453 | a job on an interval only is triggered at most 1 + floor(elapsed / interval) times between its first and last trigger |
| SchedulerRuns.TriggersOfEveryJob | yasin_core/execution/scheduler.py:406-461 | over every run of the whole scheduler, raising ticks and a missing or refusing engine included, each job keeps to its maximum, to one trigger without interval and cron, and to the interval bound; a set next run time means live, a recurring job that is neither cancelled nor at its maximum has one, an interval after its last trigger at least; its last run is its last trigger |
| SchedulerRuns.TickIsCollectAndTry | yasin_core/execution/scheduler.py:417-430 | a tick, raising or not, is a run of a collection and the attempts it gets to |
| ScheduledRuns.CancelStopsTriggers | yasin_core/execution/scheduler.py:206-212 | after a cancel only a trigger already collected can still happen, and over every run the job stays cancelled without a next run |
| ScheduleImage.FirstRun | yasin_core/execution/scheduler.py:165-204 | a new job first runs the delay after its construction, else when the cron search says, else the interval after it, else at once; never, when it is allowed no runs; it is not made exactly when the cron search is asked and raises |
| ScheduleImage.MadeAsAsked | yasin_core/execution/scheduler.py:121-169 | a new job has everything it was asked for, a fresh id and a name from it where none is given, and the time of its making |
| ScheduledRuns.NextRunFollowsTheLastTrigger | yasin_core/execution/scheduler.py:171-204 | over every run without a cancellation the job is as it was before the first trigger; after one its last run is that of the last trigger and its next run is the interval after that trigger's later reading, or what the cron search finds from there, or none for a job that runs once or has had its runs |
| ScheduledRuns.RecurringGoesOn | yasin_core/execution/scheduler.py:171-204 | over every run whatsoever a job on an interval or cron expression has a next run as long as it is not cancelled and has runs left |
| ScheduledRuns.RunKeepsLastRun | yasin_core/execution/scheduler.py:446-448 | over every run whatsoever the last run is the last trigger |
| ScheduledRuns.TriggeredInTime | yasin_core/execution/scheduler.py:417-430 | a collection takes a job exactly when its next run time has come and it is not cancelled, and no job that stays uncancelled is triggered before that time |
| SchedulerRuns.TickTriggersDue | yasin_core/execution/scheduler.py:417-461 | a tick in which nothing raises triggers exactly the listed jobs whose next run time has come and that are not cancelled, each once, in the order of the list |
| Scheduler.ScheduledJob.CalculateNextRun | yasin_core/execution/scheduler.py:171-204 | none when cancelled or at the maximum; else the delay after the reading before the first run, else what the cron search finds, else the interval after the reading, else at once or never; unchanged when the cron search raises |
| Scheduler.Scheduler.SaveSchedule | yasin_core/execution/scheduler.py:463-481 | stores exactly the image of the jobs as they are |
| Scheduler.Scheduler.ScheduleJob | yasin_core/execution/scheduler.py:299-338 | adds the job and leaves the image exact; a raising cron search changes nothing |
| Scheduler.Scheduler.UnscheduleJob | yasin_core/execution/scheduler.py:340-355 | cancels and forgets a known job and leaves the image exact |
| Scheduler.Scheduler.ClearJobs | yasin_core/execution/scheduler.py:371-379 | keeps exactly the active jobs, in the same order, and leaves the image exact |
| ScheduleImage.ActiveInOrder | yasin_core/execution/scheduler.py:371-379 | the active jobs keep their order |
| Scheduler.Scheduler.TriggerJob | yasin_core/execution/scheduler.py:432-461 | a missing engine changes nothing, a refusing one raises and changes nothing; one that accepts has the run counted and the next one calculated, and the image is exact afterwards unless the cron search raised |
| Scheduler.Scheduler.Tick | yasin_core/execution/scheduler.py:417-430 | tries the jobs that were due at its reading, in order, one after another up to the first that raises |
| Scheduler.TickedPointwise | yasin_core/execution/scheduler.py:424-430 | a tick that does not raise tries each due job exactly once and changes no other |
| Scheduler.Scheduler.LoadSchedule | yasin_core/execution/scheduler.py:483-519 | goes through the stored image, each record becoming a job under its id |
| Scheduler.Scheduler.Reload | yasin_core/execution/scheduler.py:291-297 | reloading after a save leaves every job as it was |
| ScheduleImage.ImageIsActive | yasin_core/execution/scheduler.py:469-478 | the image holds exactly the active serialisable jobs, each as its own record |
| ScheduleImage.LoadRestoresActive | yasin_core/execution/scheduler.py:483-519 | loading the image into an empty scheduler restores the active jobs field for field and in order, for string targets and nonzero creation times |
| ScheduleImage.ReloadChangesNothing | yasin_core/execution/scheduler.py:291-297 | reloading over the jobs the image was taken from changes nothing |
| ScheduleImage.RoundTripIff | yasin_core/execution/scheduler.py:84-118 | a stored active job comes back as itself if and only if its target is text, or a function the import system finds again under its module and name, and its creation time is not zero (or read as zero again) |
| ScheduleImage.LostFunction | yasin_core/execution/scheduler.py:100-118 | a stored function that is not found again comes back as the text of its name |
| ScheduleImage.TriggerKeepsImageIff | yasin_core/execution/scheduler.py:171-204 | after a trigger the image agrees with the jobs if and only if the job is not one that is neither cancelled nor at its last run and has a cron expression whose search raises |
| ScheduleImage.MalformedCronLeavesStaleImage | yasin_core/execution/scheduler.py:450-459 | a job with a delay and a malformed cron expression is made, stored and triggered once, and its record then says it never ran |
| ConfigTrees.LookupLaw | yasin_core/config/settings.py:366-379 | what is at a path is decided by the first layer from the overrides down that is not silent on it; a scalar at a strict prefix makes it absent |
| ConfigTrees.MergeLook | yasin_core/config/settings.py:374-379 | the two-layer law |
| ConfigTrees.DeepUpdate | yasin_core/config/settings.py:374-379 | the loop over the update's items merges dictionaries and replaces the rest |
| ConfigTrees.MergeAssociatesIff | yasin_core/config/settings.py:374-379 | merging three layers associates if and only if no scalar between two dictionaries hides something of the lowest |
| ConfigTrees.ScalarBetweenHides | yasin_core/config/settings.py:374-379 | three layers where the order of merging decides whether a setting is there |
| ConfigTrees.GetIsLookupIff | yasin_core/config/settings.py:216-228 | `get` gives the value found, or the default for nothing and None, if and only if no key is missing on the way, or after the last missing one no keys are left or those left lead to nothing or None in the default |
| ConfigTrees.GetWalksIntoDefault | yasin_core/config/settings.py:216-228 | a missing key answered from inside a dictionary-valued default |
| ConfigTrees.SetRaisesIff | yasin_core/config/settings.py:327-330 | assignment raises if and only if the path is blocked |
| Flattening.RefusedIffScalarAbove | yasin_core/config/settings.py:327-330 | that is, if and only if some scalar leaf lies at a strict prefix |
| ConfigTrees.SetThenFind | yasin_core/config/settings.py:327-330 | what was assigned is found again |
| ConfigTrees.SetLeavesOthers | yasin_core/config/settings.py:327-330 | whatever it is merged over, an assignment changes nothing at an incomparable path |
| Configuration.ConfigurationManager.Get | yasin_core/config/settings.py:216-228 | answers by the deciding layer, for every default that is not a dictionary |
| Configuration.ConfigurationManager.Set | yasin_core/config/settings.py:196-205 | refused exactly when a scalar override is on the way; otherwise a scalar is read back and incomparable paths are unchanged |
| Configuration.ConfigurationManager.MergeConfigs | yasin_core/config/settings.py:366-372 | the merge of the four layers |
| Configuration.ConfigurationManager.Reload | yasin_core/config/settings.py:135-158 | the overrides survive a reload of the other layers |
| Configuration.ConfigurationManager.RegisterPluginConfig | yasin_core/config/settings.py:90-123 | defaults with dot-free keys and no empty dictionary are merged in under the plugin's namespace, or refused exactly when a scalar is in the way; into empty defaults they come back as they were if and only if they are like that |
| Flattening.FlattenDict | yasin_core/config/settings.py:356-364 | the keys are exactly the dotted paths of the leaves, with their values |
| Flattening.SetAll | yasin_core/config/settings.py:103-105 | setting every key again, in whatever order, touches nothing outside the namespace |
| Memory.SameAnswers | yasin_core/memory/persistent.py:18-142 | with a clock that does not go back, both memories answer every sequence of operations alike and in the same order |
| Memory.SameAnswersIff | yasin_core/memory/persistent.py:18-142 | at given clock readings both memories answer every sequence of operations alike from empty if and only if the readings, from the second one on, never go back |
| MemoryReads.ReadsLastWrite | yasin_core/memory/in_memory.py:18-114 | with a clock that does not go back both memories answer a read with what was last written under the key and neither deleted nor cleared since, up to and including the moment it expires, and a filter with exactly such entries that it asks for |
| MemoryReads.ChosenInOrder | yasin_core/memory/in_memory.py:86-114 | a filter gives what it asks for in the order in which the memory holds it |
| MemoryReads.LiveInOrder | yasin_core/memory/in_memory.py:18-23 | a cleanup leaves the entries that stay in their order |
| Memory.PackedStep | yasin_core/memory/persistent.py:18-142 | on a private store each operation gives the dictionary's answer |
| Memory.SweepIsLive | yasin_core/memory/persistent.py:18-29 | sweeping the store leaves exactly the live entries, in order |
| Memory.SameEntriesIff | yasin_core/memory/persistent.py:93-109 | both memories keep the same entries if and only if the operation is not a `get_entry` beside another expired entry |
| Memory.DifferenceShows | yasin_core/memory/in_memory.py:102-114 | memories that keep different entries are told apart by a later filter with a clock far enough back |
| Memory.ClockGoingBackShows | yasin_core/memory/persistent.py:93-109 | a run with a clock that goes back in which the answers differ |
| Memory.NoExpiredEntry | yasin_core/memory/in_memory.py:18-114 | the in-memory one never returns an expired entry |
| Memory.NoExpiredEntryFromStore | yasin_core/memory/persistent.py:38-142 | nor does the storage-backed one, whatever the store holds; a value it returns is foreign or that of an entry not expired |
| MemoryStores.InMemoryMemory.CleanupExpired | yasin_core/memory/in_memory.py:18-23 | exactly the live entries stay, in order |
| MemoryStores.InMemoryMemory.Set | yasin_core/memory/in_memory.py:33-59 | the entry is put after the cleanup, expiring `ttl` after the reading |
| MemoryStores.InMemoryMemory.Select | yasin_core/memory/in_memory.py:86-114 | the matching live entries in order |
| MemoryStores.InMemoryMemory.Filter | yasin_core/memory/in_memory.py:102-114 | only live entries with the metadata asked for |
| MemoryStores.StorageBackedMemory.CleanupExpired | yasin_core/memory/persistent.py:18-29 | every key is fetched once; nothing is left to delete afterwards |
| MemoryStores.StorageBackedMemory.GetEntry | yasin_core/memory/persistent.py:93-109 | an expired entry is deleted on the way and not returned; a foreign value is wrapped |
| MemoryStores.StorageBackedMemory.Select | yasin_core/memory/persistent.py:111-142 | the matching entries in the store's order |
| Versions.PrintUndoesParse | yasin_core/compatibility/version.py:16-32 | parsing the printed form of any parsed string gives the same version |
| Versions.PrintThenParseIff | yasin_core/compatibility/version.py:71-74 | a version survives printing and parsing if and only if its prerelease does not end in white space |
| Versions.OrderTotal | yasin_core/compatibility/version.py:34-69 | any two versions are comparable |
| Versions.OrderAntisymmetric | yasin_core/compatibility/version.py:34-69 | versions at most each other are equal |
| Versions.OrderTransitive | yasin_core/compatibility/version.py:34-69 | the order is transitive |
| Versions.OrderMeans | yasin_core/compatibility/version.py:34-38 | major, minor and patch decide in that order; of equal ones the release is the greatest and the others go by the order of their texts |
| Texts.LeqMeans | yasin_core/compatibility/version.py:34-38 | a prefix comes first, else the first character that differs decides |
| Versions.DecorationIgnored | yasin_core/compatibility/version.py:16-32 | white space and leading v's around a version do not matter |
| Versions.ShortForms | yasin_core/compatibility/version.py:26-32 | numbers that are not written are zero |
| Versions.CaretMeaning | yasin_core/compatibility/version.py:95-110 | a caret range admits the versions from its base on in the same line and the prereleases of its upper limit, nothing else |
| Versions.CaretAdmitsPrereleases | yasin_core/compatibility/version.py:80-110 | every prerelease of the next breaking version satisfies the caret expression of a version |
| Versions.OperatorMeans | yasin_core/compatibility/version.py:112-139 | what `>=`, `<=`, `>`, `<`, `==` and `!=` require, with any white space around operator and version |
| Versions.PlainExpressionsMean | yasin_core/compatibility/version.py:90-117 | a version alone requires exactly that one; an empty expression and a star require nothing |
| Versions.IsCompatible | yasin_core/compatibility/version.py:80-139 | decides the requirement the expression denotes |
| Versions.Negotiate | yasin_core/compatibility/version.py:147-167 | raises if and only if no server version is compatible; otherwise returns a string that satisfies the expression, is one of those versions printed, and is at least every one of them |
| Texts.JoinSplit | yasin_core/config/settings.py:221-221 | joining the pieces of a split gives the string back |
| Texts.SplitJoin | yasin_core/config/settings.py:201-201 | splitting joined separator-free pieces gives the pieces back |

## Left out

- Setters of a job's fields other than its priority, called from outside the engine: they can write anything.
- Threads, join timeouts, thread pools, sleeps and context activation: the host's scheduling; atomic steps stand for them.
- Events, logging, metrics, results, errors and started/completed times of jobs, health and status dictionaries: they do not feed back.
- The runner's own `status`, which can delay a fetch: a fetch is always allowed, which only adds runs.
- The heap inside `queue.PriorityQueue`: library code; the queue is a sequence kept sorted by priority, creation time and counter.
- JobTheorems.ExactlyOnePlace: does not cover runs with a step that is not harmless, which the code allows; by `JobSteps.StepInvIff` such a step breaks the invariant there and then.
- Python reflection: signatures and type hints become explicit parameter lists, subclass lookup in `_find_registration` is not modelled.
- Container.DIContainer.Resolve: registrations are keyed exactly, factories do not touch the container themselves, and a factory's outcome (returns, returns None, raises) is fixed; how often a transient's factory runs, and that of a singleton that returns None, is not stated: they run at every resolution of their key.
- Reporting and removing single capabilities of a registered worker: they only change which submissions a worker is chosen for.
- Plugin discovery and `check_version_compatibility`: the outcome of the version check is a boolean of the plugin.
- Plugin `initialize`, `shutdown` and `reload`: loops over the operations modelled here that pass over those that raise.
- Missing `initialize` and `shutdown` hooks of services: the same as hooks that return.
- Nested dictionaries, registrations and migration documents are values: sharing of one object between two places is not captured.
- YAML and environment loading, schemas and their validation, masking of sensitive values: input, output or single-branch facts.
- Configuration.ConfigurationManager.Set: without registered schemas, so `validate` does not raise.
- The digit limit of `int`, characters outside ASCII in numbers and white space, and the range limits of `timedelta`: host limits.
- Local time zones in the scheduler: the cron search of `calculate_next_run` is a function of the clock reading.
- SchedulerRuns.TriggersOfEveryJob: ids are not used twice and nothing is reloaded during the run; a second job under an id is a job of its own.
- Absent storage or client in the scheduler, and a storage that raises: the save is then skipped.
- Sharing of argument and metadata objects between a scheduled job and its record, or between a memory and its callers.
- The text match of `search`: any condition on an entry, as it rests on `str` and `lower`.
- Precedence of prerelease identifiers after section 11 of Semantic Versioning 2.0.0: the code compares prereleases as plain strings, and so does the model.
- API gateway, providers, SDK, tools, contracts, context engine, event bus, security, `DataMigrator`, `ConfigurationMigrator`: delegation, network or easy members.
