# Verified model of containr

containr deploys apps as containers on one host, routes HTTP traffic to them and runs their cron jobs.
This project models the parts of it in which several operations share state, and proves what they keep:

- **Deployments** (`TopologicalSort`, `RolloutPlan`, `Rollout`, `DeploymentJobs`, `JobRecords`, `DeploymentRuns`): one worker
  takes jobs from a queue, orders the services of an app, replaces their containers stop-first or start-first, and
  records what runs. `Docker` holds the live containers and a ghost trace of every state; each pull, create and
  health check may fail.
- **Deployment status** (`JobLifecycle`, `JobOutcomes`, `StartupReplay`, `Superseding`): the same worker seen through the store, one
  access a step, interleaved with API handlers that create, supersede and delete deployments or save copies they
  read before, with crashes at any step and with the replay at startup.
- **Pausing** (`PauseHandshake`): the two atomics with which an updater holds the worker back, one access a step.
- **Cron jobs** (`CronScheduler`): a polling scheduler over two maps, a clock and a set of containers.
- **Routing** (`LoadBalancing`, `RouteTable`, `RouteRefresh`, `ContainerNames`): route states replaced under the
  requests that use them, in-flight counters, a cache of verified credentials, and the refresh of an app's routes
  from its newest running deployment. `RouteTable` follows a route's counters and cache; `RouteRefresh` drives that
  table and follows which keys exist and which upstreams they get.
- **Three smaller cores**: archive extraction (`ArchivePaths`, `ArchiveWalk`), cookie merging and stripping
  (`CookieHeaders`) and the bounded request log (`RequestLog`).

`Model`, `Domains`, `Text`, `Graphs`, `Sequences` and `Wrappers` hold shared entities and facts.

Where the code does less than it seems to promise, the code is modelled as it is, an input that fails is given and
the exact condition is proved:

- `Stopped` is not absorbing: the worker writes back the copy it read at pickup, so a stop holds exactly when the
  worker reads the deployment before it next writes it and no handler or replay has a hand on it as well, as long
  as nobody deletes the deployment or saves a copy of it that is not stopped (`Superseding.StopHoldsExactly`,
  `Superseding.SaveKeepsStopExactly`).
- Handlers that stop, start, scale or delete a service save a copy of the deployment they read earlier. Saved after
  its job, a copy read during the rollout leaves the deployment in progress in nobody's hands
  (`JobLifecycle.StaleSaveStrands`). Exactly the saves of a settled status, before the replay scan of a deployment
  it will find, or under an owner that still reads or writes the deployment keep every deployment in progress owned
  (`JobLifecycle.SaveKeepsOwnedExactly`, `JobLifecycle.OwnedThroughoutExactly`); a run with only such saves is called
  safe.
- The failure mark is written after the running flag is cleared: a thread that paused and read that flag as false
  may still see a mark exactly when the worker stands before it (`PauseHandshake.FailureMarkEscapesExactly`).
- The API server accepts deployments before the replay scan. Such a deployment gets a second owner exactly when it
  is in progress at the scan (`StartupReplay.EarlyDeploymentOwners`), and can come to stand in the queue twice exactly
  when it is in progress at the scan and the worker does not hold it
  (`StartupReplay.EarlyCanBeQueuedTwiceExactly`). The other results about replay cover runs with such deployments.
- A job that rolls out a service deleted meanwhile leaves a container no record accounts for: after a success the
  live and the recorded containers agree exactly when the services of the spec exist
  (`DeploymentJobs.LiveIsRecordedExactlyWhenServicesExist`), and over any run of jobs what lives is what the records
  account for and a set of strays, which each success enlarges by exactly the planned containers of services that
  are gone (`DeploymentRuns.WorkerLoop.Run`, `DeploymentRuns.UnrecordedIsLeaked`).
- Startup repair overlooks a missing `web` beside a running `web-1`; which printed names hide a service is
  `ContainerNames.LooksPresentExactly`, and when a service is reported over a whole listing
  `ContainerNames.ReportedExactly`.
- Round-robin is unfair at the wrap of its cursor unless the number of upstreams divides 2^64
  (`LoadBalancing.FairAcrossWrapExactly`).
- Normalising a domain is not idempotent when white space stands before trailing dots. Custom domains have to
  resolve before they are stored, but the base domain is only trimmed: `b . .` gives default domains with such keys.
  Their routes outlive the service being public, and each refresh of the app removes another app's route of the
  domain without the white space (`RouteRefresh.StaleKeyStays`, `RouteRefresh.StrangersRouteIsLost`). When an app's
  routes are exact and when another app's route is kept is stated for every table
  (`RouteRefresh.AppHasExactlyItsRoutes`, `RouteRefresh.OtherRoutesKeptExactly`), and over any sequence of refreshes,
  drops and removals of apps in which the served keys are in normal form both hold as the source intends.
- Cookie filtering looks at the first header only when fewer than two values are readable and non-blank
  (`CookieHeaders.FilterTakesGateOutExactly`, with the lemmas about unreadable and blank first headers).
- An offset of 2^63 or more turns negative in the request log's query (`RequestLog.ListsRequestedSliceExactly`).
- A restarted scheduler knows none of the containers it launched before: tracking is complete after a restart
  exactly when there were none (`CronScheduler.Scheduler.Restart`).

## Model

| member | source | states |
|---|---|---|
| TopologicalSort.TopologicalSortServices | crates/containr-runtime/src/worker.rs:1159-1238 | Ok exactly when names are distinct and the sibling graph has no cycle; the result is a permutation with every sibling dependency before its dependent; for every order of the first queue the loop ends |
| TopologicalSort.ReleaseNeighbors | crates/containr-runtime/src/worker.rs:1219-1228 | decrements each in-degree by the multiplicity of its edge without underflow and releases exactly the names that reach zero |
| TopologicalSort.BuildGraph | crates/containr-runtime/src/worker.rs:1170-1197 | in-degrees and adjacency lists count sibling dependencies with their repetitions and ignore unknown names |
| TopologicalSort.InitialQueue | crates/containr-runtime/src/worker.rs:1199-1204 | queues exactly the names without sibling dependencies |
| TopologicalSort.NothingLeft | crates/containr-runtime/src/worker.rs:1231-1237 | with an empty queue, all services are listed exactly when names are distinct and the graph is acyclic |
| Graphs.NeverStuckMeansCycle | crates/containr-runtime/src/worker.rs:1231-1235 | names left over, each with an unvisited dependency, contain a cycle: the reported error is never spurious |
| Graphs.OrderMeansAcyclic | crates/containr-runtime/src/worker.rs:1231-1237 | an order with dependencies first proves the graph acyclic: no cycle is ever accepted |
| ContainerNames.PrintingInjective | crates/containr-runtime/src/worker.rs:514-517 | container names are injective in service, replica and short id, dashes in service names included |
| ContainerNames.ShortId | crates/containr-runtime/src/worker.rs:1381-1383 | the short id of a deployment is its first eight hex digits |
| Text.DecimalDenotes | crates/containr-runtime/src/worker.rs:514-517 | a replica number is printed in decimal: reading the digits gives the number |
| ContainerNames.TestAcceptsExactlyItsService | crates/containr/src/main.rs:1206-1217 | on printed names the routing test accepts a container for a service exactly when it was printed for it |
| ContainerNames.TestAcceptsExactly | crates/containr/src/main.rs:1206-1217 | on any name the test accepts exactly the prefix followed by some digits, a dash and some hex digits |
| ContainerNames.MissingServiceNames | crates/containr-api/src/server.rs:394-419 | reports exactly the long-running services the deployment runs for which no container name starts with the prefix and a digit |
| ContainerNames.LooksPresentExactly | crates/containr-api/src/server.rs:394-419 | exactly which printed containers make a service look present to startup repair |
| ContainerNames.ReportedExactly | crates/containr-api/src/server.rs:394-419 | over a whole listing of the app's printed names among names without its prefix, a service that the deployment runs is reported exactly when no listed name was printed for it and none hides it |
| ContainerNames.ReportedServiceHasNoContainer | crates/containr-api/src/server.rs:394-419 | a reported service truly has no container |
| ContainerNames.NeighbourHidesMissingService | crates/containr-api/src/server.rs:394-419 | the converse fails: `web-1` hides that `web` has none |
| RolloutPlan.SlotKeepsItsContainer | crates/containr-runtime/src/worker.rs:520-535 | under start-first a slot without host ports keeps its old container in every state while replicas start |
| RolloutPlan.SlotStaysServed | crates/containr-runtime/src/worker.rs:438-446 | while old containers are retired every slot of the spec is served |
| RolloutPlan.NoPortBoundTwice | crates/containr-runtime/src/worker.rs:520-535 | if each host port belongs to one service in the old and new spec, no two live containers bind the same port in any state of a rollout, under either strategy and any replica count |
| RolloutPlan.NoSlotDoubled | crates/containr-runtime/src/worker.rs:527-534 | under stop-first no slot has two live containers in any state |
| Rollout.Docker.Create | crates/containr-runtime/src/worker.rs:636-639 | creating may fail, may leave the container behind, and always fails for a taken name |
| Rollout.RetireOld | crates/containr-runtime/src/worker.rs:518-535 | under stop-first or with host ports the recorded container of the slot is gone before anything else happens, in at most one step; no other container changes |
| Rollout.CreateNew | crates/containr-runtime/src/worker.rs:536-653 | the new name is tracked before it is created; whatever fails, no container goes, and success means the new one lives under its name |
| Rollout.StartReplica | crates/containr-runtime/src/worker.rs:513-653 | one replica: the old container goes first exactly under stop-first or with host ports, and is gone in every state from then on; every state keeps to the plan |
| Rollout.StartService | crates/containr-runtime/src/worker.rs:478-511 | a service without an image fails the rollout, a cron job is recorded as stopped without a container |
| Rollout.RolloutServices | crates/containr-runtime/src/worker.rs:459-672 | every state is one of a rollout in progress; success means every planned replica lives, the records are exactly theirs and every service had an image; it fails only if a pull, create or health check failed or an image is missing |
| Rollout.NextNameIsFree | crates/containr-runtime/src/worker.rs:513-535 | the name of the next replica is never taken by what the rollout found or created, so creation cannot fail for that |
| Rollout.RemoveCreated | crates/containr-runtime/src/worker.rs:384-397 | after a failure no container of the failed rollout is left |
| Rollout.RemoveOld | crates/containr-runtime/src/worker.rs:438-446 | after a success only created containers are left, and every state in between has all replicas |
| DeploymentJobs.CollectOldContainers | crates/containr-runtime/src/worker.rs:346-366 | the container of each slot's first record that names one, and all recorded containers |
| DeploymentJobs.SettledFits | crates/containr-runtime/src/worker.rs:346-366 | between jobs the containers found are the recorded ones of their slots, and no name the rollout will print is recorded, short ids being distinct |
| DeploymentJobs.RecordsExactly | crates/containr-runtime/src/worker.rs:655-667 | the records of a rollout are exactly its planned replicas under their printed names |
| JobRecords.FinishedRecordsExactly | crates/containr-runtime/src/worker.rs:404-428 | a deployment whose job succeeded has, each once, the running record of every planned replica under its printed name and the stopped record of every cron job, of services that exist, and no others |
| JobRecords.FinishedContainersExactly | crates/containr-runtime/src/worker.rs:513-653 | after a success there is one container for each planned replica of the spec, and the first replica alone binds the host ports of its service |
| DeploymentJobs.StoredExactly | crates/containr-runtime/src/worker.rs:404-428 | the stored records are those of services that still exist |
| DeploymentJobs.LiveIsRecordedExactlyWhenServicesExist | crates/containr-runtime/src/worker.rs:404-446 | after a success the live set equals the recorded set exactly when the services of the spec exist |
| DeploymentJobs.UnrecordedContainer | crates/containr-runtime/src/worker.rs:404-423 | a service that no longer exists leaves a live container without a record |
| DeploymentJobs.SettledAfterSuccess | crates/containr-runtime/src/worker.rs:399-450 | after a success one deployment runs, and it accounts for every live container exactly when the services of the spec exist |
| DeploymentJobs.SettledAfterFailure | crates/containr-runtime/src/worker.rs:384-397 | after a failure the deployment that ran still accounts for every live container |
| DeploymentJobs.FailedStartFirstChangesNothing | crates/containr-runtime/src/worker.rs:384-397 | a failed start-first rollout of an app without host ports leaves exactly the containers it found |
| DeploymentJobs.SlotServedThroughJob | crates/containr-runtime/src/worker.rs:518-535 | under start-first a served slot without host ports is served in every state of a job, unless a success drops it from the spec |
| DeploymentJobs.JobKeepsGuarantees | crates/containr-runtime/src/worker.rs:334-453 | host ports, slots served under start-first, slots never doubled under stop-first, unchanged failures and no container beyond the spec, over all states of a job |
| DeploymentJobs.DeploymentWorker.PreviousRunning | crates/containr-runtime/src/worker.rs:1096-1109 | exactly the other running deployments of the app, each once |
| DeploymentJobs.DeploymentWorker.RestoreAppServices | crates/containr-runtime/src/worker.rs:693-705 | saving the rolled-back spec deletes the services it lacks with their records |
| DeploymentJobs.KeepExistingExactly | crates/containr-common/src/db.rs:880-912 | deleting a service drops exactly its records |
| DeploymentJobs.KeepExistingAppend | crates/containr-common/src/db.rs:880-912 | record by record, so order and number of the others stay |
| DeploymentJobs.DeploymentWorker.MarkPreviousStopped | crates/containr-runtime/src/worker.rs:1111-1134 | exactly the previous deployments become stopped, with as many records as before, each with its service, replica and container and stopped; no other deployment changes |
| DeploymentJobs.DeploymentWorker.StoreSuccess | crates/containr-runtime/src/worker.rs:399-436 | the new deployment is stored as running with the records of existing services; other deployments keep their status, and all their records unless a rollback removed the service |
| DeploymentJobs.DeploymentWorker.DeployServices | crates/containr-runtime/src/worker.rs:334-453 | success: only planned containers live and only this deployment runs; failure: the store is untouched and only old containers live |
| DeploymentJobs.DeploymentWorker.ProcessJob | crates/containr-runtime/src/worker.rs:196-330 | a job that fails or is superseded anywhere keeps the app accounting for its containers and changes nothing in the store but its own status: failed, and then because something it depends on failed, its spec cannot be ordered or an image is missing, or else stopped with no container touched; a success leaves only its own deployment running, stops the previous ones with all their records, and only its planned containers live, recorded where their service exists; strays are never touched |
| DeploymentJobs.DeploymentWorker.FinishedMeans | crates/containr-runtime/src/worker.rs:404-450 | after a success at most one deployment runs, and it accounts for every live container exactly when the services of the spec exist |
| DeploymentRuns.UnrecordedIsLeaked | crates/containr-runtime/src/worker.rs:404-428 | of what lives after a success exactly the planned containers of services that are gone belong to no service |
| DeploymentRuns.RestIsRecorded | crates/containr-runtime/src/worker.rs:404-450 | apart from those, the records of the one running deployment are exactly what lives |
| DeploymentRuns.WorkerLoop.TakeTurn | crates/containr-runtime/src/worker.rs:146-190 | one job of a run, after handlers added services: its per-job guarantees hold, and the accounts and the strays change as stated by what it left |
| DeploymentRuns.WorkerLoop.Run | crates/containr-runtime/src/worker.rs:146-190 | over every crash-free sequence of jobs, rollbacks and jobs of missing services included, with services added in between: each job keeps its guarantees, at most one deployment runs, what lives is what its records account for and the strays, these grow by exactly the planned containers of missing services of each success, and no host port is bound twice by accounted containers in any state |
| DeploymentRuns.EachHeld | crates/containr-runtime/src/worker.rs:334-453 | of each job of such a run: host ports, served and undoubled slots over its states, its accounts and what it added to the strays |
| PauseHandshake.Handshake | crates/containr-runtime/src/worker.rs:34-67 | in every interleaving, after a thread stored PAUSED and read RUNNING as false no `process_job` step runs before a resume |
| PauseHandshake.QuietExactlyWhenPaused | crates/containr-runtime/src/worker.rs:49-67 | what a reader of RUNNING as false may conclude: nothing starts before a resume exactly when PAUSED is up |
| PauseHandshake.ConsistentAlongRuns | crates/containr-runtime/src/worker.rs:149-160 | RUNNING is set exactly from the announcement of a job to its end or retraction |
| PauseHandshake.ReceivedJobIsProcessed | crates/containr-runtime/src/worker.rs:146-190 | however often the worker is held back, a received job is processed to its end before it is reported or the next one is received |
| PauseHandshake.FailureMarkEscapesExactly | crates/containr-runtime/src/worker.rs:158-188 | with PAUSED up and RUNNING read as false no failure mark is written before a resume exactly unless the worker stands before its mark |
| PauseHandshake.FailureMarkEscapes | crates/containr-runtime/src/worker.rs:158-188 | a run from the start that gets there |
| JobLifecycle.BoundedAlongRuns | crates/containr-runtime/src/worker.rs:146-330 | in every interleaving, whatever copies are saved, a deployment has one owner at most among its handler, the queue, the worker and the replay; two only if it was accepted between a restart and the scan |
| JobLifecycle.OwnedAlongRuns | crates/containr-runtime/src/worker.rs:146-330 | in every safe interleaving with handlers, crashes and replay each in-progress deployment has an owner that will still read or write it, unless it awaits the scan |
| JobLifecycle.SaveKeepsOwnedExactly | crates/containr-api/src/domain/services/mod.rs:4283-4316 | which saves of an earlier copy keep that: of a settled status, before the scan, or under such an owner |
| JobLifecycle.OwnedThroughoutExactly | crates/containr-api/src/domain/services/mod.rs:4156-4168 | every state of a run has its in-progress deployments owned if and only if every save of the run is one of those |
| JobLifecycle.StaleSaveStrands | crates/containr-api/src/domain/services/mod.rs:4398-4490 | a run from the start in which a copy read during a first rollout is saved after the job: the deployment stays in progress with no owner |
| JobLifecycle.DrainedMeansSettled | crates/containr-api/src/server.rs:421-459 | in safe runs, crashes and deployments accepted before the scan included, with nothing queued, worked on, created or replayed no deployment is in progress |
| JobLifecycle.JobEndsSettled | crates/containr-runtime/src/worker.rs:146-330 | in safe runs a job that ends leaves its deployment running, failed, stopped or deleted, unless it was accepted before a scan and its second owner is left |
| StartupReplay.ReplayQueuesExactlyOnce | crates/containr-api/src/server.rs:421-562 | a deployment in progress at a crash, whatever run came before: once a replay is over, after any safe run from the crash, it is settled or exactly once in the queue or with the worker |
| StartupReplay.ScanFindsInterrupted | crates/containr-api/src/server.rs:461-479 | the scan lists every deployment the crash interrupted unless a handler settled or deleted it meanwhile, whatever the early server and worker did before it |
| StartupReplay.EarlyDeploymentOwners | crates/containr-api/src/server.rs:254-263 | a deployment accepted before the scan has one owner at most before it, two after it exactly when it was in progress then, and never more later |
| StartupReplay.EarlyCanBeQueuedTwiceExactly | crates/containr-api/src/server.rs:421-459 | some crash-free continuation of the scan has it twice in the queue if and only if it was in progress at the scan and the worker did not hold it |
| StartupReplay.CreationBeforeScanQueuesTwice | crates/containr-api/src/server.rs:254-263 | a run from the start in which a deployment accepted before the scan is queued twice |
| JobLifecycle.SettledStatuses | crates/containr-api/src/server.rs:564-573 | the interrupted statuses are exactly the others than running, failed and stopped |
| JobOutcomes.OnlyWritesChangeStatus | crates/containr-runtime/src/worker.rs:1318-1350 | who writes which status: a deployment becomes running only by the write after a successful rollout or by a saved copy, failed only by the failure mark, a replay that gives up or a saved copy, and likewise for each other status |
| JobOutcomes.WritesLeaveTheirStatus | crates/containr-runtime/src/worker.rs:1318-1350 | each of those writes leaves just that status |
| JobOutcomes.OnlyHandlersDelete | crates/containr-runtime/src/worker.rs:146-330 | a deployment leaves the store exactly when a handler deletes or withdraws it |
| JobOutcomes.FailureEndsFailed | crates/containr-runtime/src/worker.rs:173-188 | wherever `process_job` fails, two more accesses leave a deployment that is stored and not stopped failed, with nothing else changed |
| JobOutcomes.FailureOfStoppedIsQuiet | crates/containr-runtime/src/worker.rs:173-180 | the failure of a stopped or deleted deployment changes nothing |
| JobOutcomes.LoadChecksTheApp | crates/containr-runtime/src/worker.rs:196-215 | a job goes on only if its deployment is stored under its app |
| JobOutcomes.ChecksEndTheJobExactly | crates/containr-runtime/src/worker.rs:1337-1350 | each check ends the job exactly when its deployment is stopped or gone |
| JobOutcomes.PreparationRuns | crates/containr-runtime/src/worker.rs:196-330 | undisturbed, a job of each kind goes through its phases, each once, and leaves its deployment starting |
| JobOutcomes.SuccessLeavesOnlyItRunning | crates/containr-runtime/src/worker.rs:399-450 | undisturbed, a prepared job ends with its deployment the only one of the app that runs; the ones that ran are stopped and nothing else has changed |
| Superseding.StopHoldsExactly | crates/containr-runtime/src/worker.rs:1318-1350 | a stop of the deployment being worked on holds in every continuation that neither deletes it nor saves a copy of it that is not stopped, exactly when the worker reads the deployment before it next writes it and neither its handler nor the replay has a hand on it |
| Superseding.SaveKeepsStopExactly | crates/containr-api/src/domain/services/mod.rs:4333-4390 | a save over a stopped deployment leaves it stopped exactly when the copy is stopped and not saved as running |
| Superseding.StopHoldsExactlyBeforeAReading | crates/containr-runtime/src/worker.rs:1318-1350 | for a deployment not accepted before a scan: exactly when the worker reads it before it next writes it |
| Superseding.OtherOwnersOverwrite | crates/containr-api/src/server.rs:546-562 | a replay that still lists a stopped deployment can mark it failed |
| Superseding.DoomedAlongRuns | crates/containr-runtime/src/worker.rs:173-180 | such a stop survives errors of the clone or build in that window, the failure mark and every other step but a deletion or a save of another copy |
| Superseding.NextWriteOverwrites | crates/containr-runtime/src/worker.rs:1318-1335 | elsewhere the next status write replaces the stop |
| JobLifecycle.WorkProgresses | crates/containr-runtime/src/worker.rs:196-330 | every access of the worker, failing or not, brings its job nearer to its end |
| JobLifecycle.QueueDrains | crates/containr-runtime/src/worker.rs:146-190 | from every reachable state outside a restart the worker alone empties the queue, leaving nothing in progress but what handlers are creating |
| CronScheduler.Scheduler.PollOnce | crates/containr-runtime/src/cron_scheduler.rs:87-229 | succeeds exactly when every read does; keeps consumed slots strictly increasing for every key, every container launched since the last restart tracked by the job of its own key, and every running job of an active service; a pass that ends keeps states and jobs of active services only, and for every active service whose schedule never ends a state with its schedule and running deployment |
| CronScheduler.Scheduler.Run | crates/containr-runtime/src/cron_scheduler.rs:68-85 | over any sequence of polls and restarts with a non-decreasing clock consumed slots strictly increase per key, across redeploys, rebuilt states, overruns and failed reads, and what was launched since the last restart is tracked or gone |
| CronScheduler.Scheduler.OneContainerPerKey | crates/containr-runtime/src/cron_scheduler.rs:140-209 | a key has at most one container launched since the last restart, the one its job tracks |
| CronScheduler.Scheduler.Restart | crates/containr-runtime/src/cron_scheduler.rs:68-75 | after a restart every container is tracked exactly when there was none |
| CronScheduler.Scheduler.ConsumeDueSlot | crates/containr-runtime/src/cron_scheduler.rs:144-166 | a due slot is consumed, by advancing the state past now before anything is launched, unless the schedule has ended |
| CronScheduler.Scheduler.RefreshState | crates/containr-runtime/src/cron_scheduler.rs:115-135 | a state is rebuilt, from the next occurrence after now, exactly when schedule or deployment changed; it never offers a consumed slot again |
| CronScheduler.Scheduler.RunDueSlot | crates/containr-runtime/src/cron_scheduler.rs:144-209 | a due slot is consumed even when the launch fails, and a launch is attempted exactly for a consumed slot with an image; a job is tracked exactly when its container exists for its key |
| CronScheduler.Scheduler.PollService | crates/containr-runtime/src/cron_scheduler.rs:112-209 | a tracked job is never launched beside; an untracked due slot is consumed and launched, no other slot is, and no other key changes; the state left is for the running deployment and its schedule, with its old slot or the next occurrence after a reading of the clock in this poll |
| CronScheduler.Scheduler.LaunchCronJob | crates/containr-runtime/src/cron_scheduler.rs:307-391 | a launched container is new and belongs to its key; a failed launch leaves none behind |
| CronScheduler.Scheduler.ReconcileRunningJobs | crates/containr-runtime/src/cron_scheduler.rs:393-452 | a job stays exactly when its container exists and runs; dropped jobs leave no container, kept ones are unchanged |
| CronScheduler.Scheduler.RetainActive | crates/containr-runtime/src/cron_scheduler.rs:213-226 | states and jobs of inactive services go, containers included |
| CronScheduler.ConsumeInOrder | crates/containr-runtime/src/cron_scheduler.rs:144-166 | consuming a due, unconsumed slot keeps the consumed slots increasing and never early |
| CronScheduler.FreshSlotIsUnconsumed | crates/containr-runtime/src/cron_scheduler.rs:250-268 | a slot computed from now lies after every consumed one |
| LoadBalancing.RoundRobinIsFair | crates/containr-proxy/src/routes.rs:181-187 | k consecutive selections give each of n upstreams floor(k/n) or ceil(k/n) while the cursor does not wrap |
| LoadBalancing.FairAcrossWrapExactly | crates/containr-proxy/src/routes.rs:181-187 | fair from every cursor exactly when the number of upstreams divides 2^64 |
| LoadBalancing.UnfairAtWrap | crates/containr-proxy/src/routes.rs:181-187 | a cursor and a count for which an upstream is selected too often |
| LoadBalancing.SelectionsStayLevel | crates/containr-proxy/src/routes.rs:188-204 | least-connections selections without completions keep the loads within one of each other once they are |
| LoadBalancing.SelectionsLevel | crates/containr-proxy/src/routes.rs:188-204 | from any loads, selections without completions level them, within the total gap to the highest |
| RouteTable.LeastLoaded | crates/containr-proxy/src/routes.rs:188-204 | finds the first minimum |
| RouteTable.RouteManager.AddRoute | crates/containr-proxy/src/routes.rs:112-155 | the domain gets a fresh state with zero counters and an empty cache; replaced states and outstanding tokens are untouched |
| RouteTable.RouteManager.RemoveRoute | crates/containr-proxy/src/routes.rs:158-162 | exactly the normalised domain goes |
| RouteTable.RouteManager.PickUpstream | crates/containr-proxy/src/routes.rs:181-204 | the cursor's upstream and the next cursor, or the first least loaded one |
| RouteTable.RouteManager.SelectOn | crates/containr-proxy/src/routes.rs:176-206 | the algorithm's upstream and no other counter goes up by one |
| RouteTable.RouteManager.SelectUpstream | crates/containr-proxy/src/routes.rs:171-207 | no selection exactly without a route or upstreams; otherwise the algorithm's upstream of the current route, its counter one higher and the cursor moved, one more outstanding token, every counter equal to its outstanding tokens |
| RouteTable.RouteManager.SelectTimes | crates/containr-proxy/src/routes.rs:171-207 | k requests for a domain in a row: the counters grow by the picks; round-robin picks each upstream as often as counted from the cursor, least-connections gives the loads of k selections of the first minimum |
| RouteTable.RoundRobinSelectionsAreFair | crates/containr-proxy/src/routes.rs:181-185 | those round-robin picks are floor(k/n) or ceil(k/n) while the cursor does not wrap |
| RouteTable.LeastConnectionsSelectionsStayLevel | crates/containr-proxy/src/routes.rs:186-200 | those least-connections loads stay within one of each other once they are |
| RouteTable.RouteManager.Complete | crates/containr-proxy/src/routes.rs:361-368 | the decrement never saturates and only the token's own, possibly replaced, route changes |
| RouteTable.RouteManager.CheckBasicAuth | crates/containr-proxy/src/routes.rs:211-244 | an allowed header would pass the full check against that route's own credentials |
| RouteTable.RouteManager.VerifyPending | crates/containr-proxy/src/routes.rs:288-303 | the full check decides exactly by username and hash; only accepted headers enter the cache, which stays within 64 entries |
| Text.NormalizeIdempotentExactly | crates/containr-proxy/src/routes.rs:334-336 | normalising twice changes nothing exactly when no white space is left before the trailing dots |
| Text.LowerCharExactly | crates/containr-proxy/src/routes.rs:334-336 | two characters have one lower case exactly when they are equal or the same ASCII letter in two cases |
| Text.TrimTakesOffSpace | crates/containr-proxy/src/routes.rs:334-336 | trimming takes white space off both ends and nothing else |
| RouteRefresh.DomainsForExactly | crates/containr/src/main.rs:1165-1184 | a service is served under its default domain and its non-blank custom domains, each once |
| RouteRefresh.DomainsForService | crates/containr/src/main.rs:1173-1184 | the loop yields those domains in order |
| RouteRefresh.CustomDomainsExactly | crates/containr-common/src/models.rs:618-629 | the custom domains of a service are its non-blank ones |
| RouteRefresh.CustomDomainsGrow | crates/containr-common/src/models.rs:618-629 | in the order in which they are configured |
| RouteRefresh.NewestRunningExactly | crates/containr/src/main.rs:891-901 | the routed deployment is running and none newer is |
| RouteRefresh.UpstreamsExactly | crates/containr/src/main.rs:943-985 | an upstream is a listed container with an address, at the port of the service in the running spec; when the running deployment has a record of this service with a container, it is the container of such a record, otherwise one recognised by name |
| RouteRefresh.RuntimeServiceExactly | crates/containr/src/main.rs:902-950 | the running spec is the snapshot of the running deployment or the present one; the service is the first in it with its id, or as it is now |
| RouteRefresh.TrimSlashesExactly | crates/containr/src/main.rs:961-961 | listed names lose the slashes at their front and nothing else |
| RouteRefresh.PrintedNameBelongsExactly | crates/containr/src/main.rs:955-973 | with nothing recorded, a printed name belongs to exactly the service it was printed for |
| RouteRefresh.CollectUpstreams | crates/containr/src/main.rs:958-985 | the loop over the listing collects exactly those upstreams, in order |
| RouteRefresh.Routes.AddRoute | crates/containr-proxy/src/routes.rs:112-155 | the proxy's table keeps a state of the same shape under every key, and no token is completed or lost |
| RouteRefresh.Routes.RemoveAppRoutes | crates/containr/src/main.rs:1012-1035 | the table without the images of the app's own keys, its subdomain, all its custom domains and the images of keys under its suffix |
| RouteRefresh.Routes.RefreshRoutesForApp | crates/containr/src/main.rs:867-1010 | a failed read or listing changes nothing, a deleted app loses its routes, otherwise the table is the refreshed one; the proxy's table follows and tokens stay outstanding |
| RouteRefresh.RefreshedExactly | crates/containr/src/main.rs:867-1010 | what a refresh leaves under any key of any table: the route of the last public service that claims it, with its app, service, upstreams, algorithm and credentials, or what the removal spared |
| RouteRefresh.AppHasExactlyItsRoutes | crates/containr/src/main.rs:867-1010 | for any table, after a refresh the keys carrying the app's id are exactly the domains of its public services if and only if each key it had is served again or taken out; served keys have the current upstreams |
| RouteRefresh.CleanOrConfiguredKeysSuffice | crates/containr/src/main.rs:1012-1035 | so it is when each key the app had is in normal form or still belongs to a configured domain |
| RouteRefresh.LastServingExactly | crates/containr/src/main.rs:942-1009 | of several public services under one key the last one's route stays |
| RouteRefresh.OtherRoutesKeptExactly | crates/containr/src/main.rs:1012-1035 | for any table, another app's route is unchanged exactly when its key is neither served nor taken out |
| RouteRefresh.CleanOtherRoutesKeptExactly | crates/containr/src/main.rs:1012-1035 | in a table in normal form: exactly unless it shares a domain, the app's subdomain or its suffix |
| RouteRefresh.RemovalExactly | crates/containr/src/main.rs:1012-1035 | which keys the removal takes out of any table |
| RouteRefresh.CleanRemovalExactly | crates/containr/src/main.rs:1012-1035 | in a table in normal form: by owner, subdomain, configured domain and suffix |
| RouteRefresh.CustomKeysExactly | crates/containr/src/main.rs:1022-1028 | the configured keys are those of every configured domain, of services that are not public too |
| RouteRefresh.EventsStayClean | crates/containr/src/main.rs:440-465 | refreshes, drops of deleted apps and removals keep a table in normal form while the served domains give such keys |
| RouteRefresh.OwnedKeysWereServed | crates/containr/src/main.rs:779-808 | from any table without a route of it, such as the one with the external routes, an app owns only keys that one of its own refreshes served |
| RouteRefresh.RoutesAreExactAfterAnyEvents | crates/containr/src/main.rs:867-1010 | after any refreshes, drops and removals from such a table a refresh leaves an app exactly its routes, if every key its earlier refreshes served was in normal form or is still configured |
| RouteRefresh.OtherRoutesKeptAfterAnyEvents | crates/containr/src/main.rs:1012-1035 | and from any table in normal form it leaves another app's or an external route unchanged exactly unless that shares a domain, the subdomain or the suffix, while served domains give keys in normal form |
| RouteRefresh.NothingPublicOnlyRemoves | crates/containr/src/main.rs:929-940 | without a public service a refresh only removes |
| RouteRefresh.KeyIsCleanExactly | crates/containr-proxy/src/routes.rs:334-336 | which configured domains give keys in normal form |
| RouteRefresh.ServesCleanExactly | crates/containr/src/main.rs:1165-1184 | when all domains of an app's public services do |
| RouteRefresh.OwnRoutesAllRemovedExactly | crates/containr/src/main.rs:876-884 | removing an app's routes by their own domains, as for a deleted app, removes all of them exactly when their keys are in normal form |
| RouteRefresh.SpacedSubdomain | crates/containr-common/src/models.rs:686-700 | the default domain under the base domain `b . .` keeps white space before its last dot |
| RouteRefresh.StaleKeyStays | crates/containr/src/main.rs:1012-1035 | under the base domain `b . .` the route of a default domain outlives the service being public |
| RouteRefresh.StrangersRouteIsLost | crates/containr/src/main.rs:1017-1021 | and the next refresh removes another app's route of the domain without the white space |
| ArchivePaths.NormalizeEntryPath | crates/containr-api/src/archive.rs:174-195 | accepts exactly paths of names and `.`, keeps their names, and reports the first offending component |
| ArchivePaths.PlainResolvesToNames | crates/containr-api/src/archive.rs:174-195 | an accepted path resolves lexically to exactly its names |
| ArchivePaths.ResolveInsideRoot | crates/containr-api/src/archive.rs:198-213 | the lexical resolution of a path |
| ArchivePaths.LexicalExactly | crates/containr-api/src/archive.rs:198-213 | it succeeds exactly when the path is relative and no prefix leads above the root |
| ArchivePaths.DetoursCancel | crates/containr-api/src/archive.rs:198-213 | a name followed by `..`, and `.`, can be taken out anywhere in a path without changing where it leads |
| ArchivePaths.WalkWithoutLinks | crates/containr-api/src/archive.rs:198-213 | without links the file system resolves every path to its lexical resolution |
| ArchivePaths.LinkIsFollowed | crates/containr-api/src/archive.rs:80-91 | a path through a link goes on by the target from the directory of the link |
| ArchivePaths.UnderAnyExactly | crates/containr-api/src/archive.rs:80-91 | a path is nested under links exactly when one of them is a proper beginning of it |
| ArchivePaths.LandsOnItself | crates/containr-api/src/archive.rs:80-91 | a path with no link above it is created exactly where it says |
| ArchiveWalk.CheckEntry | crates/containr-api/src/archive.rs:80-143 | accepts exactly entries not under an extracted symlink, of a supported type, whose link target is contained; a symlink adds its own path to the recorded ones, nothing else does |
| ArchiveWalk.LinkPathsExactly | crates/containr-api/src/archive.rs:98-116 | recorded are exactly the paths of the symlinks below the archive root |
| ArchiveWalk.NothingNestedWithoutSymlinks | crates/containr-api/src/archive.rs:80-91 | so nothing in a stream without symlinks is refused for nesting |
| ArchiveWalk.TargetContainedExactly | crates/containr-api/src/archive.rs:98-116 | a symlink target is contained exactly when it is relative and never climbs above the root from the directory of the link |
| ArchiveWalk.BytesAppend | crates/containr-api/src/archive.rs:145-150 | the byte count is the sum of the announced sizes of the entries below the archive root |
| ArchiveWalk.ExtractEntry | crates/containr-api/src/archive.rs:80-160 | an entry is written, at the path it names, exactly when it passes its checks and the byte cap and the file system takes it |
| ArchiveWalk.TakeEntry | crates/containr-api/src/archive.rs:64-160 | one turn of the loop succeeds exactly for an acceptable entry and leaves the tree alone otherwise |
| ArchiveWalk.Unpack | crates/containr-api/src/archive.rs:57-160 | succeeds exactly when every entry is acceptable, stops at the first that is not, and leaves the tree the extracted entries name |
| ArchiveWalk.WritesAreContained | crates/containr-api/src/archive.rs:57-160 | every write has a relative, non-empty path free of `..`, no ancestor of it is an earlier symlink, it lands at its lexical path, there are no more entries than their cap, the sizes announced in the entry headers stay within theirs, and a hard link names a file that is neither a recorded symlink nor below one |
| ArchiveWalk.LinksRecordedAndContained | crates/containr-api/src/archive.rs:98-116 | every link in the tree is recorded and its target resolves lexically inside the root |
| ArchiveWalk.OnlyNamedPathsChange | crates/containr-api/src/archive.rs:151-160 | extraction changes the tree only at paths that entries name |
| ArchiveWalk.LastEntryDecides | crates/containr-api/src/archive.rs:151-160 | the accepted entry that names a path last decides what stands there: its content, its link, the file it shares, or a directory where nothing stood |
| CookieHeaders.RequestHeader.UpstreamRequestFilter | crates/containr-proxy/src/pingora_proxy.rs:602-609 | the gate cookie and nothing else is taken out, in order, exactly under a stated condition on the headers; when at most one header is left |
| CookieHeaders.MergeKeepsCookies | crates/containr-proxy/src/pingora_proxy.rs:934-949 | merging loses no cookie and keeps their order, whatever the headers hold |
| CookieHeaders.StripTakesOut | crates/containr-proxy/src/pingora_proxy.rs:893-913 | stripping a readable first header leaves exactly its other cookies |
| CookieHeaders.NameAndValueExactly | crates/containr-proxy/src/pingora_proxy.rs:880-913 | the name of a cookie ends at its first equals sign and its value follows; a cookie without one is all name |
| CookieHeaders.WithoutAppend | crates/containr-proxy/src/pingora_proxy.rs:893-913 | taking out goes cookie by cookie, so the others keep order and number |
| CookieHeaders.FirstValueExactly | crates/containr-proxy/src/pingora_proxy.rs:880-891 | the value of a name is that of its first cookie with one |
| CookieHeaders.FilterTakesGateOutExactly | crates/containr-proxy/src/pingora_proxy.rs:602-609 | when merge then strip equals filtering out the gate cookie, for every list of headers |
| CookieHeaders.AtMostOneHeaderExactly | crates/containr-proxy/src/pingora_proxy.rs:602-609 | when at most one header is left |
| CookieHeaders.OrdinaryRequestsAreFiltered | crates/containr-proxy/src/pingora_proxy.rs:880-949 | for readable, non-blank headers: one header at most, no gate cookie found in it, every other cookie value as before |
| CookieHeaders.UnreadableHeaderKeepsGate | crates/containr-proxy/src/pingora_proxy.rs:893-902 | a gate cookie behind an unreadable header is passed on |
| CookieHeaders.BlankHeaderLosesCookies | crates/containr-proxy/src/pingora_proxy.rs:893-913 | the app's only cookie is lost behind a blank header |
| RequestLog.RequestLogTable.Append | crates/containr-common/src/db.rs:1309-1329 | refines appending to the service's history; the new index is free |
| RequestLog.RequestLogTable.Delete | crates/containr-common/src/db.rs:1350-1361 | refines forgetting the service's history and counts its rows |
| RequestLog.RequestLogTable.List | crates/containr-common/src/db.rs:1331-1348 | the newest-first slice of the retained history as SQL reads limit and offset |
| RequestLog.RequestLogTable.RowsAreRetainedHistory | crates/containr-common/src/db.rs:1309-1329 | in every reachable state a service's rows are contiguous and hold exactly its last 2000 entries since the last delete |
| RequestLog.HistoryIsSinceLastDelete | crates/containr-common/src/db.rs:1350-1361 | the history consists of everything appended after the last delete |
| RequestLog.ListsRequestedSliceExactly | crates/containr-common/src/db.rs:1331-1348 | a list call gives the requested slice exactly unless its offset is 2^63 or more, the limit is not 0 and there are rows |
| RequestLog.SliceExactly | crates/containr-common/src/db.rs:1331-1348 | a slice leaves out as many entries as the offset says and has as many of the next ones as the limit allows |

## Left out

- Docker, git, image builds, registries, ACME, S3, GitHub and WebSockets: only whether an operation succeeds enters the model.
- SQL text, serde and migrations: tables are maps; that deleting a service row drops its service deployments is assumed, as is SQL's reading of a negative LIMIT as no limit and a negative OFFSET as none.
- Argon2 and base64 are function parameters, as is the cron engine, of which only strictly later occurrences are assumed; AES and JWT do not occur.
- The `tar` crate and the real file system: an accepted entry that the file system takes is materialised where the path resolves; directories missing on the way are created. Link targets are judged lexically, so what a chain of links leads to when followed is not claimed.
- Windows paths: a target counts as absolute when it starts with the root.
- Containers are stopped and removed in one step, and removals succeed.
- Store writes and the reads around the failure mark and the replay scan succeed; best-effort saves of single service deployments and deployment logs are not modelled, nor is the failure of loading the app when a rollback is restored.
- DeploymentRuns.WorkerLoop.Run: follows one app; between its jobs handlers add services but delete none, nor do they start, stop or scale containers; its deployments have distinct short ids; host ports are claimed of accounted containers, because a stray keeps the ports of a service that is gone; crashes are in JobLifecycle only, because a replayed deployment prints the same container names again.
- DeploymentJobs.DeploymentWorker.ProcessJob: clone, build and the supersede checks are one nondeterministic outcome there, and the statuses on the way are not stored; JobLifecycle has them access by access.
- TopologicalSort.TopologicalSortServices: which of the possible orders comes out depends on the order of a hash map and is not fixed.
- JobLifecycle: a handler's stop may be saved at any time after it listed the deployment, even over a deletion, and so may a copy, any number of times; which deployment a service handler picks and what its copy does to service records and containers is not modelled; the scan of the whole store is one step, its order by creation time is left open, and marking a replayed deployment failed is one step.
- ArchiveWalk.WritesAreContained: the byte cap is on the sizes entry headers announce, as in the source; that the reader yields no more content than announced is left to the `tar` crate.
- CronScheduler.Scheduler.LaunchCronJob: container names have second precision; when a name is taken, the clean-up after the failed create removes the container that holds it, and the model does the same.
- RouteTable.RouteManager.SelectUpstream: assumes fewer than 2^64 outstanding tokens, so that counters do not wrap.
- RouteTable.RouteManager.PickUpstream: picking and counting are two steps between which other requests and replacements may come, but the scan of the counters is one step.
- RouteRefresh: HTTPS flags and the login gate of a refreshed route are copied unchanged and not modelled; the address of a container is the same throughout one refresh, and the listing is a flat list of names. A second guard for an app without public services can never fire after the first and is not repeated.
- RouteRefresh.StaleKeyStays: shown for base domains, because custom domains are checked to resolve before they are stored (crates/containr-api/src/domain/services/mod.rs:3939-4000); rows stored without that check behave alike.
- Domains are lower-cased as ASCII text.
- RequestLog: indices do not reach 2^63.
- Forwarded headers, the login page and the open-redirect check of the proxy, the CLI, configuration, OpenAPI, managed databases and queues, storage, metrics and the web interface: they would only add easy members.
