# CortexRelay: a verified model

CortexRelay schedules, leases, stores and recovers work that is delegated to agents. This project models the parts of it
where several processes, crashes or unbounded input meet, and proves what they keep. It is checked as a whole with
`dafny verify dfyconfig.toml`, or file by file with the files it imports.

The code that changes state is modelled by classes and methods with loops; each is proved against a specification
function, and the properties are proved of those functions, over every input and every run.

| files | component |
|---|---|
| `Scheduler`, `SchedulerCalls`, `SchedulerPass`, `SchedulerRuns`, `SchedulerSafety`, `SchedulerLiveness` | the task service: submission, the scheduling pass, cancellation, completion; safety and termination over whole runs |
| `Reservations` | the shared table of scheduler slots |
| `Leases`, `LeaseTurns` | agent leases in the store, the turns of one process, and of several over whole runs |
| `Completion` | the three files of a finished task, and recovery after a crash |
| `FallbackChain`, `Graphs` | expanding a profile into its fallbacks, and trying them |
| `Recovery`, `Text` | resuming an interrupted provider session under a deadline |
| `TomlText`, `TomlRender` | writing a configuration as TOML, and reading it back |
| `GroupView` | drawing the dependency tree of a task group |
| `TreeGc`, `TreeGcRaces` | pruning ended agent trees, alone and among other processes |
| `EventLog` | event and message logs with cursors |
| `CodexConfig`, `CodexPatterns`, `CodexText`, `Sections`, `Text` | keeping managed keys in a user's configuration file |
| `Supervision` | budgets of one worker turn |
| `Handoff` | applying or discarding a worker's worktree |
| `Retry` | bounded retries of a transaction |

Conventions. Every store call, and every scheduling pass, is one step, and reads the clock once inside the step. Times
of the stores are whole ticks; the recovery module uses reals. What the outside world answers (a provider's turn, Git, a
budget check, the resource a job resolves to) is an arbitrary input. A hash stands for the thing it was taken of, and
random ids and tokens are distinct inputs.

## Where the code does less than it says

- A configuration does not always survive being written and read back, as `tests/test_wizard.py` suggests: the delete
  character and bare keys outside ASCII make the text invalid. `ReadsBackExactlyWhenClean` gives the exact condition.
- `gc` promises that topology never becomes partially orphaned; with a workspace filter it can
  (`FilteredCollectionOrphans`; `NobodyIsEverOrphanedExactlyWhen` says for which tables it cannot), and so it can without
  one, for a child started between the read and the deletion (`NewcomersAreOrphaned`).
- `gc` promises to preserve active lineage; a session that wakes between the read and the deletion of its tree is deleted
  while active (`TakesActiveExactlyWhen`).
- A record that says `success` can still become `failed_gate`, and a crash in between leaves record and result in
  disagreement for good (`GateCrashDisagrees`, `RecompletionAgreesExactlyWhen`). The scheduler's claims are therefore
  about the recorded status at the moment of a launch.
- Reconciling leases with a time ahead of the clock can interrupt a turn that holds a valid grant
  (`ReconcileRespectsGrantsExactlyWhen`, `LookingAheadInterrupts`).
- Updating a managed configuration is not idempotent for a value that holds a line end, be it a newline, a carriage
  return or any other at which a text is cut: the next update finds and rewrites the first piece, and the rest piles up
  (`UpdatingTwiceExactlyWhen`, `OneLineEndIsEnough`). A value with any control character but the tab leaves a file that is
  not TOML (`LiteralsReadBack`).

## Model

| member | source | states |
|---|---|---|
| `Scheduler.TaskService.SubmitTask` | src/cortex_relay/runtime/task_service.py:119-204 | a submission with a bad priority, repeated dependencies, or a dependency that is no async task of the workspace is refused and changes nothing; otherwise the record starts as routing or queued, the job joins the list, and a pass follows |
| `Scheduler.TaskService.CheckDependencies` | src/cortex_relay/runtime/task_service.py:304-316 | the failed dependencies in declared order, an unresolvable one counting as failed, and whether any is unfinished |
| `Scheduler.TaskService.SchedulerAllows` | src/cortex_relay/runtime/task_service.py:461-491 | a job may run exactly when its workspace, provider and profile each run fewer jobs than their limit |
| `Scheduler.TaskService.VisitJob` | src/cortex_relay/runtime/task_service.py:299-341 | one pending job is skipped, blocked, queued behind dependencies, or goes on to launch, with exactly the record changes of that branch |
| `Scheduler.TaskService.TryLaunch` | src/cortex_relay/runtime/task_service.py:343-430 | a ready job ends over budget, queues, ends blocked for want of an artifact, or takes a slot and launches |
| `Scheduler.TaskService.Launch` | src/cortex_relay/runtime/task_service.py:404-430 | a slot is asked for: refused, the job queues; granted, the job is launched with its record routing |
| `Scheduler.TaskService.ScheduleReady` | src/cortex_relay/runtime/task_service.py:269-435 | the loop over the sorted pending jobs has the effect of the pass function; its result is the launches in order |
| `Scheduler.TaskService.CancelTask` | src/cortex_relay/runtime/task_service.py:801-839 | a pending job ends cancelled, a launched one is told, and a pass follows; a task of another process gets the request on record; a terminal or finished one is left alone |
| `Scheduler.TaskService.TaskFinished` | src/cortex_relay/runtime/task_service.py:453-459 | the finished job gives its slot back, then a pass |
| `SchedulerCalls.SubmitsExactlyWhen` | src/cortex_relay/runtime/task_service.py:119-142 | a submission is accepted if and only if its dependencies are distinct, its priority lies in -100..100, what it inherits from is among them, and each is on record as an async task of the workspace; otherwise which of the four it is refused for, the first in this order |
| `SchedulerCalls.SubmittedTasksAreOnRecord` | src/cortex_relay/runtime/task_service.py:168-190 | field by field, the record and the job of an accepted task; everything else stays, and a refused one changes nothing |
| `SchedulerCalls.CancelsExactly` | src/cortex_relay/runtime/task_service.py:801-839 | field by field, what a cancellation leaves of the task and its job, for every state they can be in |
| `SchedulerCalls.VisitsExactly` | src/cortex_relay/runtime/task_service.py:299-411 | what becomes of a job at its visit, for every record, count and limit: the first that applies of a lost dependency, an unfinished one, a spent budget, no capacity by the configured limits, no artifact, no slot; and launched if none does |
| `SchedulerCalls.VisitsWrite` | src/cortex_relay/runtime/task_service.py:318-430 | field by field, what the visit writes into the record and the job, and that it leaves all others |
| `SchedulerCalls.FailedInOrder` | src/cortex_relay/runtime/task_service.py:304-316 | failed dependencies are named in the order in which they were declared |
| `SchedulerCalls.EachVisitCounts` | src/cortex_relay/runtime/task_service.py:292-296 | in every run, at each visit of a pass the list of running jobs counts exactly the jobs that run |
| `SchedulerPass.PendingOrderIsSorted` | src/cortex_relay/runtime/task_service.py:275-290 | a pass visits exactly the pending jobs, each once, by descending priority, start and id |
| `SchedulerPass.VisitsAreByPriority` | src/cortex_relay/runtime/task_service.py:275-290 | a pass visits exactly the jobs without a future and a result, each once; of two, the earlier has the higher priority, or at one priority no record or the earlier start, or at one start the smaller id |
| `SchedulerPass.VisitAllOutcome` | src/cortex_relay/runtime/task_service.py:299-430 | each visited job ends launched, queued, or settled as blocked or over budget, and in no other way |
| `SchedulerPass.LaunchesAreSafe` | src/cortex_relay/runtime/task_service.py:312-430 | a pass launches only jobs whose every dependency was recorded success, and each holds a slot of this owner |
| `SchedulerPass.FailedDependencyBlocks` | src/cortex_relay/runtime/task_service.py:318-330 | a job with a failed dependency ends blocked, with a failed dependency named in its record |
| `SchedulerPass.NobodyIsPassedOver` | src/cortex_relay/runtime/task_service.py:357-430 | in one pass, a launched job never passes over an earlier, ready, in-budget, non-inheriting job of the same workspace, provider and profile |
| `SchedulerPass.VisitAllKeepsQuotas` | src/cortex_relay/runtime/task_service.py:461-491 | launching job after job in a pass keeps the running jobs of this service within the limits of every workspace, provider and profile |
| `SchedulerRuns.InvHoldsInEveryRun` | src/cortex_relay/runtime/task_service.py:104-204 | over every run of submissions, passes, completions, renewals, cancellations and foreign steps: the job graph stays acyclic, pending jobs stay open, slots are this owner's, results are recorded, quotas hold |
| `SchedulerRuns.FreshServiceIsFine` | src/cortex_relay/runtime/task_service.py:39-61 | a new service starts inside that invariant, whatever other processes have stored |
| `SchedulerRuns.RunsAllow` | src/cortex_relay/runtime/task_service.py:70-94 | what the runs spoken of leave open: cancellations, releases, renewals, and other processes' records and slots |
| `SchedulerRuns.NoPassRaises` | src/cortex_relay/runtime/task_service.py:404-411 | in every run, wherever a pass asks for a slot the store answers yes or no, and raises neither of its exceptions |
| `SchedulerSafety.LaunchSafety` | src/cortex_relay/runtime/task_service.py:299-430 | in every run, a step launches a job only when each of its dependencies is recorded success at that moment |
| `SchedulerSafety.LaunchedAtMostOnce` | src/cortex_relay/runtime/task_service.py:275-279 | no job is launched twice in any run |
| `SchedulerSafety.DoomPersists` | src/cortex_relay/runtime/task_service.py:306-330 | a job behind a terminal failure, however far up the chain, stays doomed under every step, or has ended blocked or cancelled |
| `SchedulerSafety.DoomedNeverLaunches` | src/cortex_relay/runtime/task_service.py:318-330 | a doomed job is never launched in any run, and without cancellation ends blocked if it ends |
| `SchedulerSafety.PassBlocksFailed` | src/cortex_relay/runtime/task_service.py:318-330 | the next pass blocks a job with a failed dependency and records which |
| `SchedulerSafety.PassIsFair` | src/cortex_relay/runtime/task_service.py:280-290 | the fairness of a pass, stated for the service in every state within the invariant |
| `SchedulerSafety.PassIsByPriority` | src/cortex_relay/runtime/task_service.py:280-290 | the launches of a pass, and its queue, are in that order |
| `SchedulerSafety.UrgentJobsAreNotPassedOver` | src/cortex_relay/runtime/task_service.py:280-430 | no launched job passes over one of higher priority, earlier start or smaller id that could run on the same workspace, provider and profile |
| `SchedulerSafety.RunningJobsAreBounded` | src/cortex_relay/runtime/task_service.py:461-491 | in every run this service runs at most max_workers jobs in a workspace, four if it has no configuration, and at most as many on a provider or profile as the configured number |
| `SchedulerSafety.PassKeepsBooks` | src/cortex_relay/runtime/task_service.py:269-435 | the launches and the queue these claims speak of are the ones the pass itself returns and numbers |
| `SchedulerSafety.QueueIsWhatIsLeft` | src/cortex_relay/runtime/task_service.py:332-411 | after a pass the jobs still pending are exactly the ones it queued |
| `SchedulerSafety.QueueIsSorted` | src/cortex_relay/runtime/task_service.py:280-290 | the queue is in scheduling order |
| `SchedulerSafety.QueueIsNumbered` | src/cortex_relay/runtime/task_service.py:332-341 | the k-th queued job has position k + 1 on record |
| `SchedulerLiveness.NoDeadlock` | src/cortex_relay/runtime/task_service.py:269-435 | with positive limits, nothing running, no live slot, and every unfinished dependency a job of this service, a pass strictly shrinks the pending set |
| `SchedulerLiveness.RoundsTerminate` | src/cortex_relay/runtime/task_service.py:453-459 | if launched jobs finish, as many rounds as there are pending jobs leave none pending |
| `SchedulerLiveness.EveryJobEnds` | src/cortex_relay/runtime/task_service.py:269-435 | then every submitted job has ended, with a terminal record if it still has one |
| `SchedulerLiveness.DoomedJobsEndBlocked` | src/cortex_relay/runtime/task_service.py:318-330 | and the jobs behind a failure have ended blocked, unlaunched |
| `SchedulerLiveness.StepLightens` | src/cortex_relay/runtime/task_service.py:70-94 | no step but a submission adds to what is left to do (two for a pending job, one for a running one); a finishing job, or a pass with nothing running, takes from it |
| `SchedulerLiveness.MovesAreBounded` | src/cortex_relay/runtime/task_service.py:70-94 | along any run without submissions, as many such steps as were possible at first leave nothing to do |
| `SchedulerLiveness.EveryJobEndsInEveryBusyRun` | src/cortex_relay/runtime/task_service.py:269-459 | in any interleaving with that many of them, jobs finishing one by one among passes, renewals, cancellations and other processes, every job ends, with a terminal record if it still has one |
| `SchedulerLiveness.EverythingCanEnd` | src/cortex_relay/runtime/task_service.py:269-459 | wherever a service stands, some run without submissions has that many of them and leaves nothing to do |
| `Reservations.ReservationStore.ReserveSlot` | src/cortex_relay/runtime/agent_store.py:262-311 | purge, own-row answer, three quotas, rollback on refusal, insertion: the table afterwards and the answer, case by case |
| `Reservations.ReservationStore.RenewSlot` | src/cortex_relay/runtime/agent_store.py:313-323 | only an unexpired row of that owner is prolonged |
| `Reservations.ReservationStore.ReleaseSlot` | src/cortex_relay/runtime/agent_store.py:325-332 | only a row of that owner goes |
| `Reservations.GrantedExactlyWhen` | src/cortex_relay/runtime/agent_store.py:277-308 | a well-formed request is granted if and only if the asker holds the task there already, or nobody holds it and the unexpired rows number less than max_workers, and than the configured limit of its provider and profile if there is one |
| `Reservations.TableAfterReserve` | src/cortex_relay/runtime/agent_store.py:271-311 | row by row, the table after each answer |
| `Reservations.OnlyOwnersRenewAndRelease` | src/cortex_relay/runtime/agent_store.py:313-332 | row by row, what a renewal and a release leave |
| `Reservations.LimitOfOne` | src/cortex_relay/runtime/agent_store.py:290-298 | with a limit of one on a provider the second task gets no slot while the first holds one, and does once that has run out without renewal |
| `Reservations.RunsAreSteps` | src/cortex_relay/runtime/agent_store.py:262-332 | a run is its calls and delays one after the other |
| `Reservations.ReserveKeepsQuotas` | src/cortex_relay/runtime/agent_store.py:277-308 | a reservation leaves the rows of every workspace, provider and profile within the configured numbers |
| `Reservations.StepKeepsGrants` | src/cortex_relay/runtime/agent_store.py:262-332 | every call and delay keeps an unexpired, unreleased grant backed by its row |
| `Reservations.QuotasHoldInEveryRun` | src/cortex_relay/runtime/agent_store.py:262-332 | both hold over every interleaving of processes |
| `Reservations.LiveSlotsAreBounded` | src/cortex_relay/runtime/task_service.py:437-459 | at most max_workers tasks hold a live slot of a workspace at once, and likewise per provider and profile |
| `Reservations.NoTaskIsHeldTwice` | src/cortex_relay/runtime/agent_store.py:285-289 | no task is held live by two owners |
| `Leases.LeaseStore.AcquireLease` | src/cortex_relay/runtime/agent_store.py:898-948 | taken when there is no row, a lapsed row, or one's own; refused otherwise |
| `Leases.LeaseStore.Beat` | src/cortex_relay/runtime/agent_store.py:951-970 | the owner named in the row prolongs it, lapsed or not; nobody else does |
| `Leases.LeaseStore.ReleaseLease` | src/cortex_relay/runtime/agent_store.py:972-978 | only the named owner removes the row |
| `Leases.LeaseStore.ReconcileExpired` | src/cortex_relay/runtime/agent_store.py:993-1060 | exactly the active sessions in scope with a lapsed lease are interrupted and lose it |
| `Leases.ReconcileTakesTheAbandoned` | src/cortex_relay/runtime/agent_store.py:993-1060 | a session is newly interrupted, and its lease gone, if and only if it was starting or running, in scope, with a lease that has run out; every other session and lease is as before |
| `Leases.AcquiresExactlyWhen` | src/cortex_relay/runtime/agent_store.py:898-948 | a lease is got if and only if the session is there and its row is missing, lapsed or one's own; and the tables after it |
| `Leases.RenewsExactlyWhen` | src/cortex_relay/runtime/agent_store.py:951-970 | the same for a heartbeat: if and only if the row names the owner, lapsed or not |
| `Leases.ReleasesExactlyWhen` | src/cortex_relay/runtime/agent_store.py:972-978 | the same for a release |
| `Leases.LeaseKeeper.BeginLease` | src/cortex_relay/runtime/agent_service.py:141-161 | a turn begins with the lease and the in-process marker, or leaves nobody's unexpired lease behind |
| `Leases.LeaseKeeper.EndLease` | src/cortex_relay/runtime/agent_service.py:163-173 | the lease goes first, then the marker if it is still this turn's |
| `Leases.LeaseKeeper.HeartbeatAll` | src/cortex_relay/runtime/agent_service.py:84-101 | one tick renews each turn still named in its row and drops the others |
| `Leases.TurnsByTheBooks` | src/cortex_relay/runtime/agent_service.py:84-173 | when a turn begins, and what beginning, ending and beating leave in the tables and on the books |
| `Leases.GrantsBackedInEveryRun` | src/cortex_relay/runtime/agent_store.py:898-1060 | an owner with an unexpired, unreleased grant is the owner in the row, in every run |
| `Leases.LeasesAreExclusive` | src/cortex_relay/runtime/agent_store.py:918-945 | two owners never hold unexpired grants on one session |
| `Leases.DisplacedOwnerIsShutOut` | src/cortex_relay/runtime/agent_store.py:951-978 | while another holds a grant, acquire, heartbeat and release are denied and change nothing, and reconcile leaves the session alone |
| `Leases.ReconcileRespectsGrantsExactlyWhen` | src/cortex_relay/runtime/agent_store.py:993-1010 | given any time, reconcile respects all grants if and only if that time has reached no unexpired grant in its scope |
| `Leases.LookingAheadInterrupts` | src/cortex_relay/runtime/agent_store.py:993-1060 | a grant of thirty seconds, just given, is lost to a reconcile that looks thirty seconds ahead, and its turn is interrupted |
| `LeaseTurns.OneTurnAtATime` | src/cortex_relay/runtime/agent_service.py:84-173 | over every run of several services on one store in which each turn is beaten again before its lease runs out: one turn on a session at a time, named in its row and on the books, its next beat held, and nobody else able to begin |
| `LeaseTurns.TwoTurnsTakeALateOne` | src/cortex_relay/runtime/agent_service.py:84-173 | in any run that ends with two turns on one session, some turn was late with its beat on the way |
| `LeaseTurns.LateBeatLetsAnotherIn` | src/cortex_relay/runtime/agent_store.py:918-945 | one beat as late as the lease lasts is enough for two services to be in a turn on one session |
| `LeaseTurns.StepsOfATurn` | src/cortex_relay/runtime/agent_service.py:84-173 | a beat of either kind prolongs a kept lease from now on; the end of a turn frees the session for whoever comes next |
| `LeaseTurns.SessionsOfARun` | src/cortex_relay/runtime/agent_store.py:354-470 | a session is created once, and only one that is there changes its state |
| `Completion.RunStore.CompleteTask` | src/cortex_relay/observability.py:802-852 | output, result and record are published in that order, as far as the process gets |
| `Completion.RunStore.ReconcileTask` | src/cortex_relay/observability.py:551-603 | a lost task adopts its stored result or becomes interrupted; a corrupt result is refused; a live or terminal one is left alone |
| `Completion.RunStore.ReadResult` | src/cortex_relay/observability.py:450-462 | what a reader is told, by record and result file: nothing, what the file holds, or an error when the record names another file or a terminal task lost its result |
| `Completion.WholeCallsAgree` | src/cortex_relay/observability.py:802-852 | a whole completion leaves record, result and output in agreement field by field on its result, and a whole reconcile on the stored result or on a loss of the owner; task, owner and request to cancel stay |
| `Completion.CutCallsKeepOrder` | src/cortex_relay/observability.py:551-603 | what a call cut short after any write leaves; a reconcile of a task that is not lost, or has a corrupt result, changes nothing |
| `Completion.ReadsExactlyWhen` | src/cortex_relay/observability.py:450-462 | by what the files hold: when a reader gets the stored result, an ill-formed one, an error, or nothing |
| `Completion.CompletionsAreRead` | src/cortex_relay/observability.py:802-852 | a result can be read back if and only if its completion got as far as the result file; after its owner died nothing is completed |
| `Completion.TasksStayThemselves` | src/cortex_relay/observability.py:551-603 | in every run a task keeps its owner and kind, and a request to cancel it stands |
| `Completion.DurableInEveryRun` | src/cortex_relay/observability.py:802-852 | at every crash point a terminal record implies a stored result and output |
| `Completion.TerminalResultIsReadable` | src/cortex_relay/observability.py:459-462 | reading the result of a terminal task never finds it missing or corrupt, in any run |
| `Completion.ReconcilesConverge` | src/cortex_relay/observability.py:551-603 | after any interrupted reconciles, one that completes leaves record, result and output in agreement on the adopted result |
| `Completion.TerminalIsLeftAlone` | src/cortex_relay/observability.py:557-558 | reconciling a terminal task changes nothing |
| `Completion.CrashConvergence` | src/cortex_relay/observability.py:551-603 | for any run, owner death and interrupted reconciles: one complete reconcile converges, on the result stored at death or on interrupted |
| `Completion.ReconcileIsIdempotent` | src/cortex_relay/observability.py:551-603 | a second reconcile changes nothing, from any state of the files |
| `Completion.TerminalTasksAgree` | src/cortex_relay/observability.py:802-852 | in every run in which no second completion is cut short, record, result and output of a terminal task agree |
| `Completion.RecompletionAgreesExactlyWhen` | src/cortex_relay/runtime/task_service.py:572-574 | a second completion cut short leaves agreement if and only if what was written equals what was there; reconcile does not repair it |
| `Completion.GateCrashDisagrees` | src/cortex_relay/runtime/task_service.py:572-574 | a crash that leaves record success and result failed_gate for good |
| `FallbackChain.ChainBuilder.VisitName` | src/cortex_relay/core/profiles.py:145-161 | the recursive visit appends the expansion of a name and restores the set of names on the way, or ends with its fault |
| `FallbackChain.ChainBuilder.Build` | src/cortex_relay/core/profiles.py:141-164 | a fresh builder gives the whole expansion of a profile, or its fault |
| `FallbackChain.SucceedsExactlyWhen` | src/cortex_relay/core/profiles.py:141-163 | an expansion succeeds if and only if no cycle and no unknown profile is reachable from the start |
| `FallbackChain.RaisesExactlyOnCycles` | src/cortex_relay/core/profiles.py:366-386 | on a validated config the only fault is a cycle, raised if and only if one is reachable, at a profile on it |
| `FallbackChain.ChainIsThePreorder` | src/cortex_relay/core/profiles.py:155-163 | the chain lists the ends of all walks from the start, each walk once, in depth-first preorder |
| `FallbackChain.ReachableProfilesAreListed` | src/cortex_relay/core/profiles.py:141-163 | the profiles in the chain are exactly the reachable ones |
| `FallbackChain.OccurrencesAreWalks` | src/cortex_relay/core/profiles.py:155-163 | a profile occurs as often as there are walks to it |
| `FallbackChain.RunChain` | src/cortex_relay/core/registry.py:903-966 | attempts follow the chain from its start; each but the last failed in a way its profile falls back on, without a session in the direct path; the result is the last attempt's; a read-only profile is not run for a writing task |
| `Recovery.RunProviderTurns` | src/cortex_relay/core/registry.py:223-318 | the calls made are a run: each follows from the outcome before it, and the last raised or is not resumed; the number of recoveries is reported |
| `Recovery.Resumption` | src/cortex_relay/runtime/recovery.py:154-202 | what must hold for a turn to be resumed, and exactly what the next call carries |
| `Recovery.ResumesExactlyWhen` | src/cortex_relay/runtime/recovery.py:154-202 | for every policy, task and count: a turn is resumed if and only if it timed out for a recoverable reason that is none of the eleven, the provider can resume, attempts and time are left, and one of three session ids is there; and which of them is taken |
| `Recovery.RefusalsAreTrue` | src/cortex_relay/runtime/recovery.py:166-193 | a refusal names something that is so, counts nothing and carries no prompt |
| `Recovery.ResumptionsCarryThePrompt` | src/cortex_relay/runtime/recovery.py:194-202 | a resumption counts one more and carries the prompt |
| `Recovery.RunsGoOn` | src/cortex_relay/core/registry.py:238-312 | a run goes on as long as its turns are worth resuming and its attempts not used up |
| `Recovery.ThreeTimeoutsAreResumed` | src/cortex_relay/runtime/recovery.py:47-55 | under the default policy three print timeouts in a row, each with fifteen seconds left, make four calls, and never five |
| `Recovery.StampsOnce` | src/cortex_relay/runtime/recovery.py:98-114 | an outer deadline stays, a missing one is stamped |
| `Recovery.CallsAreBounded` | src/cortex_relay/core/registry.py:238-312 | at most max(0, max_attempts - a) + 1 calls |
| `Recovery.NothingFollowsATerminalTurn` | src/cortex_relay/runtime/recovery.py:179-186 | nothing follows a turn that raised, was cancelled, ran out of budget, did not time out, or ended for a reason never resumed |
| `Recovery.ResumedTimeout` | src/cortex_relay/core/registry.py:306-308 | a resumed timeout is at least a second, no larger than before, and within the remaining runtime if and only if a second remains |
| `Recovery.TimeoutsNeverGrow` | src/cortex_relay/core/registry.py:303-311 | along a run timeouts never grow |
| `Recovery.ResumedTurnsMeetTheDeadline` | src/cortex_relay/runtime/recovery.py:98-131 | resumed turns that overrun by at most g end by the deadline plus g |
| `Recovery.PromptsNest` | src/cortex_relay/runtime/recovery.py:117-122 | the k-th resumed prompt is k - 1 leads and then the prompt for the original objective |
| `Recovery.ObjectiveStaysAuthoritative` | src/cortex_relay/runtime/recovery.py:117-122 | the stripped original objective ends every resumed prompt |
| `Recovery.StandardWordingIsFit` | src/cortex_relay/runtime/recovery.py:20-25 | the continuation text starts and ends in visible characters, as the two above need |
| `Recovery.PrintLimitIsInRange` | src/cortex_relay/providers/antigravity.py:419-428 | the print limit lies in [1, T] |
| `Recovery.ReserveByTimeout` | src/cortex_relay/runtime/recovery.py:134-151 | the seconds kept back, as a function of the timeout over all reals |
| `Recovery.ExplicitLimit` | src/cortex_relay/providers/antigravity.py:419-428 | what an explicit limit comes to, for every value |
| `Recovery.FirstReserve` | src/cortex_relay/runtime/recovery.py:134-151 | what a first turn leaves, for every timeout |
| `Recovery.LaterReserve` | src/cortex_relay/runtime/recovery.py:148-149 | what a resumed turn leaves, for every timeout |
| `Recovery.FirstResumeExactlyWhen` | src/cortex_relay/runtime/recovery.py:190-193 | a first turn cut at its print limit can be resumed if and only if T >= 16 |
| `Recovery.SecondTurnLeavesTooLittle` | src/cortex_relay/providers/antigravity.py:424-428 | a resumed turn run to its limit leaves under six seconds |
| `Recovery.AtMostOneResume` | src/cortex_relay/runtime/recovery.py:134-193 | if every turn runs to its limit there is at most one resume, and none for a task that starts with attempts on record |
| `TomlRender.TableWriter.RenderTable` | src/cortex_relay/wizard.py:116-135 | the recursion appends the lines of a table: header after a blank line, values, then tables |
| `TomlRender.RenderToml` | src/cortex_relay/wizard.py:110-113 | the text is the joined lines, stripped at the end, and a newline |
| `TomlRender.NothingIsALine` | src/cortex_relay/wizard.py:110-113 | an empty configuration is written as an empty line |
| `TomlText.EscapesAre` | src/cortex_relay/wizard.py:141 | what stands for each character in a quoted text |
| `TomlText.BareExactlyWhen` | src/cortex_relay/wizard.py:138-141 | a key is left bare if and only if it is not empty and holds only letters and digits, in ASCII or beyond, underscores and hyphens; any other is quoted |
| `TomlText.ExponentsAre` | src/cortex_relay/wizard.py:149-150 | an exponent has a sign, and two digits at least |
| `TomlText.HexInEitherCase` | src/cortex_relay/wizard.py:85-92 | the reader takes hexadecimal digits in either case, and nothing else |
| `TomlText.BlanksAreSkipped` | src/cortex_relay/wizard.py:85-92 | the reader passes over spaces and tabs, and over nothing else |
| `TomlText.NumbersByTheRules` | src/cortex_relay/wizard.py:85-92 | what the reader refuses of numbers: a leading zero, a point or an exponent without digits; and what it takes alike |
| `TomlText.TextsByTheRules` | src/cortex_relay/wizard.py:85-92 | what it refuses of quoted texts: control characters but the tab, the delete, unknown escapes, codes of no character |
| `TomlText.LinesByTheRules` | src/cortex_relay/wizard.py:85-92 | what it refuses of lists and lines: a missing comma, anything after a value or a header |
| `TomlRender.ReadTextsAreDone` | src/cortex_relay/wizard.py:85-92 | in every text that is read, each header and each key with its value is in what was read, and every part of the way to something is a table |
| `TomlRender.NothingIsReadTwice` | src/cortex_relay/wizard.py:85-92 | and no table has two headers or one key twice |
| `TomlText.QuotedRoundTrip` | src/cortex_relay/wizard.py:141 | a quoted text is read back if and only if it holds no delete character; otherwise it is unreadable |
| `TomlText.KeyRoundTrip` | src/cortex_relay/wizard.py:138-141 | a key is read back when it is clean; otherwise nothing is read, or a character outside ASCII is left over |
| `TomlText.ValueRoundTrip` | src/cortex_relay/wizard.py:144-155 | every value, floats by their decimal texts and lists nested to any depth included, is read back if and only if its texts are clean |
| `TomlText.LineRoundTrip` | src/cortex_relay/wizard.py:129-132 | a written line is read back as itself when clean, and unreadable otherwise |
| `TomlRender.ConfigurationIsRead` | src/cortex_relay/wizard.py:116-135 | reading the lines by the table rules defines each table once and each key under its own table, and nothing else |
| `TomlRender.PathsAreLookups` | src/cortex_relay/wizard.py:85-92 | the paths defined are those a lookup in the configuration finds, with the same values |
| `TomlRender.ReadsBackExactlyWhenClean` | src/cortex_relay/wizard.py:85-113 | writing and reading back gives the same configuration if and only if no quoted text holds the delete character and no bare key a character outside ASCII; otherwise the text is not TOML |
| `TomlRender.RoundTripAnswersEveryLookup` | src/cortex_relay/wizard.py:85-113 | for a clean configuration, what is read back answers every lookup alike |
| `TomlRender.DeleteIsLost` | src/cortex_relay/wizard.py:147-148 | a value with the delete character does not survive |
| `TomlRender.AccentedKeyIsLost` | src/cortex_relay/wizard.py:139-140 | a key of one accented letter does not survive |
| `GroupView.IndexTasks` | src/cortex_relay/runtime/workflow_view.py:45 | records are indexed by id: first place, last record |
| `GroupView.LastListingCounts` | src/cortex_relay/runtime/workflow_view.py:45 | of several records of one task the last one says what it depends on |
| `GroupView.LinkTasks` | src/cortex_relay/runtime/workflow_view.py:46-56 | dependencies inside the group are turned into children, and tasks without any are roots |
| `GroupView.Renderer.EmitTask` | src/cortex_relay/runtime/workflow_view.py:60-90 | the recursive drawing of a task: label and children once, a reference back afterwards |
| `GroupView.RenderGroup` | src/cortex_relay/runtime/workflow_view.py:92-97 | roots, then whatever is left: the whole drawing |
| `GroupView.GroupsAreDrawnWhole` | src/cortex_relay/runtime/workflow_view.py:45-97 | for any list of records, cycles included: one label a task, and the references back counted |
| `GroupView.EveryTaskIsLabelledOnce` | src/cortex_relay/runtime/workflow_view.py:60-66 | every task of the group gets exactly one label |
| `GroupView.BackReferencesAreCounted` | src/cortex_relay/runtime/workflow_view.py:60-97 | references back number roots + edges + leftover starts - tasks |
| `GroupView.NoLeftoversExactlyWhen` | src/cortex_relay/runtime/workflow_view.py:95-97 | nothing is left over if and only if every task is reachable from a root |
| `GroupView.AcyclicGroupsHaveNoLeftovers` | src/cortex_relay/runtime/workflow_view.py:92-97 | a group without dependency cycles has no leftovers |
| `GroupView.IndentationIsDependency` | src/cortex_relay/runtime/workflow_view.py:83-90 | every indented line hangs under the label of a task that its task depends on |
| `TreeGc.FindCandidates` | src/cortex_relay/runtime/agent_store.py:1108-1121 | grouping by root, and the candidates: the trees that have ended |
| `TreeGc.AgentTable.Collect` | src/cortex_relay/runtime/agent_store.py:1076-1166 | what is refused and planned, and the table after deleting tree by tree among what others do; a dry run deletes nothing |
| `TreeGc.SweptAlone` | src/cortex_relay/runtime/agent_store.py:1146-1159 | when nobody else does anything, the deletions leave what one deletion of all that is planned would |
| `TreeGc.PlaceIsAhead` | src/cortex_relay/runtime/agent_store.py:1123-1127 | a candidate's place after the sort is the number of ended trees that are newer, or as new and named earlier |
| `TreeGc.SurvivesExactlyWhen` | src/cortex_relay/runtime/agent_store.py:1101-1159 | a session survives if and only if it is out of view, or its tree in view is not ended, or is neither expired nor preceded by max_completed_roots ended trees |
| `TreeGc.GoesExactlyWhen` | src/cortex_relay/runtime/agent_store.py:1101-1159 | by what the rows say: a session goes if and only if it is in view, all of its tree in view has ended, and none of it has changed since the cutoff or max_completed_roots ended trees are before it |
| `TreeGc.AheadExactlyWhen` | src/cortex_relay/runtime/agent_store.py:1116-1127 | of two ended trees the one that changed last is before the other, and at one time the one whose first row comes first |
| `TreeGc.TreesGoWhole` | src/cortex_relay/runtime/agent_store.py:1085-1089 | without a filter a tree goes wholly or not at all |
| `TreeGc.ActiveTreesSurvive` | src/cortex_relay/runtime/agent_store.py:1115-1116 | a tree with a session at work in view is untouched |
| `TreeGc.NewestStay` | src/cortex_relay/runtime/agent_store.py:1124-1136 | a session of an ended tree is among those left by a collection if and only if its tree in view is unexpired and fewer than max_completed_roots ended trees precede it |
| `TreeGc.AtMostKeepStay` | src/cortex_relay/runtime/agent_store.py:1124-1127 | a collection leaves sessions of no more than max_completed_roots ended trees in view |
| `TreeGc.NobodyIsOrphaned` | src/cortex_relay/runtime/agent_store.py:1087-1088 | without a filter, where children share their parent's root, no survivor loses its parent |
| `TreeGc.NobodyIsOrphanedExactlyWhen` | src/cortex_relay/runtime/agent_store.py:1085-1106 | with or without a filter, nobody loses its parent if and only if no tree that goes has a session in view with a child out of view |
| `TreeGc.NobodyIsEverOrphanedExactlyWhen` | src/cortex_relay/runtime/agent_store.py:1085-1106 | for every limit and cutoff at once: if and only if no ended tree in view has such a session |
| `TreeGc.FilteredCollectionOrphans` | src/cortex_relay/runtime/agent_store.py:1094-1106 | with a workspace filter one can, for every such parent and child |
| `TreeGcRaces.UnnamedAreSpared` | src/cortex_relay/runtime/agent_store.py:1101-1159 | whatever others do between the read and the deletions, a session that is not planned ends up as they alone have made it |
| `TreeGcRaces.PlannedAreGone` | src/cortex_relay/runtime/agent_store.py:1146-1159 | and a planned one is gone |
| `TreeGcRaces.TakesActiveExactlyWhen` | src/cortex_relay/runtime/agent_store.py:1101-1159 | a deletion takes an active session if and only if somebody has woken it since the read, and nobody has ended or removed it again by its turn |
| `TreeGcRaces.ActiveSessionsAreSparedExactlyWhen` | src/cortex_relay/runtime/agent_store.py:1079-1083 | so a collection spares every active session if and only if no planned session is left awake at its turn |
| `TreeGcRaces.NewcomersStayExactlyWhen` | src/cortex_relay/runtime/agent_store.py:1101-1159 | a session started meanwhile is there afterwards if and only if others alone leave it there, though its parent is gone |
| `TreeGcRaces.NewcomersAreOrphaned` | src/cortex_relay/runtime/agent_store.py:1079-1083 | so a child started under an ended session whose tree is about to go loses its parent, with no filter at all |
| `EventLog.AgentLog.RecordEvent` | src/cortex_relay/runtime/agent_store.py:642-697 | an event gets the next sequence and wakes a starting session; an unknown session is refused |
| `EventLog.AgentLog.AddMessage` | src/cortex_relay/runtime/agent_store.py:749-812 | a message gets the next sequence of its own log |
| `EventLog.AgentLog.EventPage` | src/cortex_relay/runtime/agent_store.py:699-721 | a page is the stretch of the log after the cursor, under limits 1..200 |
| `EventLog.AgentLog.MessagePage` | src/cortex_relay/runtime/agent_store.py:814-841 | the same for messages, under limits 1..500 |
| `EventLog.AgentLog.RecentEvents` | src/cortex_relay/runtime/agent_store.py:723-746 | the latest events are the end of the log, oldest first |
| `EventLog.CallsDo` | src/cortex_relay/runtime/agent_store.py:642-812 | what each call leaves of the state and both logs of any session: one more row under the next sequence, a waking, or nothing |
| `EventLog.RunsAreSteps` | src/cortex_relay/runtime/agent_store.py:642-812 | a run is its calls one after the other |
| `EventLog.QueriesSort` | src/cortex_relay/runtime/agent_store.py:705-721 | a query takes rows by ascending sequence, whatever order they are stored in |
| `EventLog.SequencesHaveNoGapsInEveryRun` | src/cortex_relay/runtime/agent_store.py:654-659 | in every run the sequences of a session are exactly 1..n, in order of insertion, in both logs |
| `EventLog.PageIsAStretch` | src/cortex_relay/runtime/agent_store.py:705-721 | for any cursor and limit: which rows a page holds and where the next cursor stands |
| `EventLog.ReaderMissesNothing` | src/cortex_relay/runtime/agent_store.py:717-721 | however appends fall between its reads, a reader that feeds the cursor back has exactly the log up to its cursor |
| `EventLog.ShortPageMeansCaughtUp` | src/cortex_relay/runtime/agent_store.py:717-721 | a page shorter than its limit means the reader has the whole log |
| `EventLog.ReadersCatchUp` | src/cortex_relay/runtime/agent_store.py:699-721 | n reads of a limit take a reader n times that limit further, up to the end of its log |
| `CodexConfig.SectionRanges` | src/cortex_relay/configurator.py:33-44 | the ranges are the sections: each from its header to the next, none overlooked |
| `CodexConfig.UpsertInRange` | src/cortex_relay/configurator.py:47-63 | within a range every setting is rewritten where it first stands or inserted at the end; the rest of the file is kept |
| `CodexConfig.UpsertConfig` | src/cortex_relay/configurator.py:71-101 | the update of the lines equals its specification |
| `CodexText.UpsertCodexConfig` | src/cortex_relay/configurator.py:66-103 | the text is cut into lines at every line end, updated and joined: the method gives the text its specification gives |
| `CodexText.WrittenLineIsOneLine` | src/cortex_relay/configurator.py:47-63 | a written line is one line when the text is cut again if and only if indent and value hold no line end of any kind |
| `Text.TenBreaks` | src/cortex_relay/configurator.py:67 | the characters at which a text is cut |
| `Text.WhiteSpaceIs` | src/cortex_relay/configurator.py:8-9 | the characters that are white space, which is stripped here and from objectives and names |
| `CodexText.UpdatedTextHasTheSettings` | src/cortex_relay/configurator.py:66-103 | for break-free values, cutting the updated text again finds every setting in its section |
| `CodexText.UpdatingTwiceExactlyWhen` | src/cortex_relay/configurator.py:66-103 | for every text, updating twice equals updating once if and only if the values hold no line end of any kind; otherwise each update adds lines |
| `CodexText.OneLineEndIsEnough` | src/cortex_relay/configurator.py:66-68 | one newline, or one carriage return, in a value is enough for that |
| `CodexConfig.WrittenLine` | src/cortex_relay/configurator.py:55-61 | taken as one line, what is written assigns its key if and only if its value holds no newline, keeps its indent, and opens no section |
| `CodexPatterns.OpensExactlyWhen` | src/cortex_relay/configurator.py:8 | a line opens a section if and only if it splits as the header pattern says, and the name is what stands in the brackets, stripped |
| `CodexPatterns.AssignsExactlyWhen` | src/cortex_relay/configurator.py:9 | a line assigns to a key if and only if it splits as the assignment pattern says |
| `CodexPatterns.LiteralsReadBack` | src/cortex_relay/configurator.py:21-30 | a literal is read by TOML as its value, except that a text with a control character or a delete is no TOML |
| `CodexConfig.SetAllKeepsTheRest` | src/cortex_relay/configurator.py:53-63 | every line of a section but the first assignment to each managed key stays, in order |
| `CodexPatterns.OthersStay` | src/cortex_relay/configurator.py:53-63 | lines that assign none of the managed keys all stay, as often as they stood there |
| `CodexPatterns.FewLinesGo` | src/cortex_relay/configurator.py:53-63 | at most one line goes for each managed key |
| `CodexConfig.UpsertGivesValues` | src/cortex_relay/configurator.py:66-103 | each managed key's first line in its section has its value |
| `CodexConfig.UpsertKeepsTheRest` | src/cortex_relay/configurator.py:66-95 | with an agents section, nothing outside the root and that section changes |
| `CodexConfig.UpsertAppends` | src/cortex_relay/configurator.py:96-101 | without one, the file is the one with its root set, then the new section |
| `Supervision.SupervisionTracker.ObserveTool` | src/cortex_relay/runtime/supervision.py:36-78 | counters and tool violations after one event |
| `Supervision.SupervisionTracker.ObserveChildren` | src/cortex_relay/runtime/supervision.py:80-104 | the children after one event, and their budget |
| `Supervision.SupervisionTracker.ObserveEvent` | src/cortex_relay/runtime/supervision.py:25-34 | the tracker's answer and state are those of the whole history; while quiet, it answers exactly on excess |
| `Supervision.ToolCountersAreExact` | src/cortex_relay/runtime/supervision.py:40-50 | the tool counters equal the number of active calls and the length of the trailing run of equal ones, whatever was returned before |
| `Supervision.FirstViolationIsFirstExcess` | src/cortex_relay/runtime/supervision.py:25-121 | after a quiet history, an event violates if and only if the history then exceeds a budget |
| `Supervision.FirstViolationByKind` | src/cortex_relay/runtime/supervision.py:25-121 | after a quiet history, which of the four violations an event returns: the first excess in order, or none |
| `Supervision.IdIsFirstNamed` | src/cortex_relay/runtime/supervision.py:80-91 | the id of a child is its first that is not empty |
| `Supervision.QuietExactlyWhenWithin` | src/cortex_relay/runtime/supervision.py:25-121 | nothing is returned if and only if no prefix exceeds its budget |
| `Supervision.ToolCallBudgetStaysExceeded` | src/cortex_relay/runtime/supervision.py:52-63 | after a tool-call violation every later active tool event violates too |
| `Supervision.ChildBudgetStaysExceeded` | src/cortex_relay/runtime/supervision.py:92-104 | after a child violation every later event violates |
| `Handoff.WorktreeHandoff.ApplyAttempt` | src/cortex_relay/runtime/worktree_handoff.py:311-359 | the checks of an apply in order, what each one sees, the effect on the source, and the record |
| `Handoff.WorktreeHandoff.DiscardAttempt` | src/cortex_relay/runtime/worktree_handoff.py:369-435 | the checks of a discard in order: the token given out, or the removal, the branch, and the record |
| `Handoff.WorktreeHandoff.SelectAttempt` | src/cortex_relay/runtime/worktree_handoff.py:62-71 | the attempt of that number if there is exactly one, or the only attempt |
| `Handoff.SelectsExactlyWhen` | src/cortex_relay/runtime/worktree_handoff.py:62-71 | an attempt is meant if and only if it alone has the number given, or is the only one and none is given |
| `Handoff.NobodyMeant` | src/cortex_relay/runtime/worktree_handoff.py:62-71 | otherwise nothing is done |
| `Handoff.AppliesExactlyWhen` | src/cortex_relay/runtime/worktree_handoff.py:311-359 | an apply goes through if and only if the attempt is in hand and everything Git says is in order; then the patch that was read is applied and on record, and otherwise no record changes |
| `Handoff.ApplyRefusalsAreTrue` | src/cortex_relay/runtime/worktree_handoff.py:318-347 | a refused apply names something that is so |
| `Handoff.AsksExactlyWhen` | src/cortex_relay/runtime/worktree_handoff.py:369-402 | asking to discard an attempt in hand gives out a token for what the worktree is, good for three hundred seconds |
| `Handoff.DiscardsExactlyWhen` | src/cortex_relay/runtime/worktree_handoff.py:403-435 | a token discards if and only if it is the one on record, in time, for the worktree as it was, and Git does its part; and what is left if not |
| `Handoff.DiscardRefusalsAreTrue` | src/cortex_relay/runtime/worktree_handoff.py:369-420 | a refused discard names something that is so |
| `Handoff.HandedOverOnceInEveryRun` | src/cortex_relay/runtime/worktree_handoff.py:318-358 | in every run a patch reaches the source at most once, an applied attempt is never discarded, a discarded one never applied |
| `Handoff.RemovalsAreConfirmedInEveryRun` | src/cortex_relay/runtime/worktree_handoff.py:405-420 | in every run a worktree is removed only with the latest token issued, in time, and unchanged since |
| `Handoff.GoneStaysGone` | src/cortex_relay/runtime/worktree_handoff.py:112-113 | unless somebody puts it back, nothing more is done to an attempt whose worktree is gone |
| `Handoff.AppliedAsAgreedInEveryRun` | src/cortex_relay/runtime/worktree_handoff.py:315-349 | in every run, a patch reaches the source only right after nine sights that agree on it: an inspection, a clean source, the patch and that it leaves nothing out, that it fits, the same clean source, the same head, the same patch and the same status again; and until then the attempt was neither applied nor discarded |
| `Handoff.PatchesReachTheSource` | src/cortex_relay/runtime/worktree_handoff.py:311-359 | and such a run is there |
| `Handoff.AskedAndConfirmed` | src/cortex_relay/runtime/worktree_handoff.py:389-435 | after asking, a token discards if and only if it is the one given, within three hundred seconds, with nothing changed |
| `Retry.Journal.Retry` | src/cortex_relay/runtime/state_retry.py:202-229 | the loop makes the attempts and sleeps of its specification; the row is inserted once if it is done, and not at all otherwise |
| `Retry.CarriedIsClosedForm` | src/cortex_relay/runtime/state_retry.py:44-49 | the carried, capped delay equals the closed form at every attempt |
| `Retry.FormsAgreeExactlyWhen` | src/cortex_relay/runtime/state_retry.py:34-49 | for any non-negative values, accepted or not, the two agree at every attempt if and only if the multiplier is at least one, or the initial delay within the cap, or the multiplier or the cap zero |
| `Retry.SleepStaysInBudget` | src/cortex_relay/runtime/state_retry.py:225-229 | all sleeps together take at most (max_attempts - 1) * cap |
| `Retry.SleptAre` | src/cortex_relay/runtime/state_retry.py:216-229 | one sleep for each retry, of the delay before it |
| `Retry.NothingIsSleptForNothing` | src/cortex_relay/runtime/state_retry.py:216-229 | delays that are not positive are not slept |
| `Retry.DelaysInUse` | src/cortex_relay/runtime/state_retry.py:25-52 | the delays of the default policy and that of the agent store, attempt by attempt |
| `Retry.SleepOfPoliciesInUse` | src/cortex_relay/runtime/state_retry.py:225-229 | the default policy sleeps at most two seconds in all, that of the agent store half a second |
| `Retry.EveryAttemptIsUsed` | src/cortex_relay/runtime/state_retry.py:216-226 | it gives up if and only if every allowed attempt failed in passing, and is done if and only if a commit came before any other end |

## Left out

- The scheduling pass is one step with one reading of the clock. The code holds a lock through it, but other processes
  can take and release slots between two of its store calls, which can let fewer or more jobs launch.
- Shutting down: `_closed`, the executor refusing a job, and the owner lock of the process are not part of this model.
- Delegation context (depth, ancestry, parents), group labels and usage totals. Whether a job is over its workflow budget
  is an input of the pass.
- The provider and profile a job resolves to are fixed per job; health scores and automatic provider choice are not
  modelled.
- A cancellation that another process requests for a job of this service is a cancellation by this service at some later
  step; the flag it leaves in the record is modelled only where this service is the one to ask.
- SQLite transactions, file locks, fsync and atomic replace are assumed; a publish happens wholly or not at all.
- The completed record's copies of usage, tests, risks and truncated texts: only status, provider, summary, text and error
  are carried.
- Completion.DurableInEveryRun: speaks of asynchronous tasks, which have an owner and are reconciled; for others the
  result may be absent by design.
- Recording provider health, progress and recovery events during a run; the fallback chain's routing metadata.
- FallbackChain.RunChain: what a provider returns is an input by position, so that running the same profile twice may
  end in two ways; resolving and launching the provider are not modelled.
- TomlText.ValueRoundTrip: a float is the parts of its decimal text, since rounding takes place before it is written;
  the refusal of values TOML has no form for is not modelled.
- The TOML reader covers lines of the written kind, with any blanks between tokens; comments, literal and multi-line
  strings, dotted keys in assignments, inline tables and dates are outside it.
- GroupView: the drawing is modelled as lines with a depth; connector characters and the text of a label are not.
- EventLog: the fields of an event or message are one payload; results and message ids are not modelled.
- LeaseTurns: a store call that raises counts as one that never happened, a worker whose lease was lost works on until its
  turn ends, and shutting a service down is its death.
- Supervision: a child's id is a text, and the texts of a violation are not modelled.
- Handoff: others may change the source between the last check and the application of a patch; Git is assumed to apply
  a patch wholly or not at all. A process that dies between an effect and its record is not modelled.
- Retry: which errors are transient is an input.
- Subprocesses, transports, dashboards, prompts, permission tables, provider event parsing and analytics: plumbing and
  text, which would add only easy members.
