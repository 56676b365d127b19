# lecrev control plane: a verified model

lecrev executes functions in several regions. This project models the core of its control plane and proves what that
core promises:

- **Execution lifecycle.** The scheduler claims jobs from the store, ranks regions and dispatches leased attempts. Hosts
  report on attempts through the coordinator, which bills them. Recovery sweeps attempts whose lease expired. All of them
  fetch whole rows and write them back.
- **Host table.** The coordinator keeps the connected hosts in memory and three derived views in the store: host rows,
  warm-pool rows and one region row.
- **Tap pool.** Network devices for microVMs are leased round-robin, with addresses carved out of one IPv4 block.
- **HTTP streaming.** A function's stream object emits events that a writer turns into one HTTP response.

The in-memory store is the reference for all tables. Every operation that changes state is a method over mutable fields,
proved against a specification function on values; lemmas over whole runs are then about those functions.

Two grains of atomicity are used, and each module says which:

- `RetryBudget`, `IdempotentDispatch` and `DelayedWrites` make every store call a step of its own, so services hold stale
  copies and anything may happen between two calls.
- `Lifecycle` and `HostRuns` make one service operation a step (a reap pass is one step per host). `Lifecycle` has a
  strictly advancing clock, and consecutive clock readings without a visible difference are one reading.

| module | what it holds |
|---|---|
| `Domain`, `Records`, `MemoryStore` | rows, the ways services rewrite them, and the job, attempt and cost tables |
| `Scheduler`, `Assignments`, `Recovery` | the three services that write those tables |
| `SchedulingPass` | a whole scheduling pass, and when it ends |
| `Lifecycle` | all of them together: invariants, freshness, billing and fairness over runs |
| `Outcomes`, `Leases` | the state diagrams of jobs and attempts, and where results, failures and lease ends come from in every run |
| `RetryBudget`, `StepRefinement` | the retry budget under lost updates, and its steps put together to the operations |
| `IdempotentDispatch` | dispatch under an idempotency key |
| `Ranking` | the order of regions |
| `HostTable`, `HostViews`, `HostRuns` | hosts, the views derived from them, and what every run keeps |
| `DelayedWrites` | the same views when the lock is released before they are written |
| `Coordinator`, `RegionService` | the coordinator's loops and its operations on the table and the store |
| `TapPool`, `SubnetCarving`, `NetworkSetup` | leasing of taps, their addresses, and both together |
| `HttpStream` | stream object, event writer and result handling |
| `SuspendedCalls` | stream calls that are not awaited |
| `Options`, `Text`, `Sums`, `Sorting` | results, strings, finite sums and stable sorting |

## What the code does not promise

These are properties one might expect and that fail. Each names the lemma that shows it and, where there is one, the
condition under which the property does hold.

- The retry budget bounds what records say, not how often a job is accepted: a report read before an acceptance is
  counted and written back after it resets the count (`RetryBudget.LostUpdateExceedsBudget`).
  `RetryBudget.CarefulRunsKeepBudget` gives the bound for runs without such write-backs, and
  `RetryBudget.AccountedIffCareful` says that those are exactly the runs whose records account for every acceptance.
- A scheduling pass whose dispatchers all refuse goes round forever (`SchedulingPass.RefusalsNeverEnd`).
  `SchedulingPass.PassEndsIff` says exactly which passes end, and `SchedulingPass.FitPassEndsIff` says it of the
  dispatchers' answers alone when every waiting job is within its budget and has its version.
- A job can fail for good with budget left (`Outcomes.EarlyGiveUp`). `Outcomes.FailedAreSpentIff` says that this happens
  exactly when a failure is reported to a coordinator that has nobody to retry with.
- A host that has the function warm is not always preferred (`HostRuns.BlankPoolsOutweighWarmth`);
  `HostRuns.WarmerIsPreferredIff` says exactly when it is.
- A call that stops with its idempotency record pending leaves the key unusable for good, with a stored job or without
  (`IdempotentDispatch.FailedUpdateAbandonsTheSlot`, `IdempotentDispatch.AbandonedSlotNeverServes`). A request that
  conflicts with the record is refused for good as well, unless the record's creator has not stored its job yet.
  `IdempotentDispatch.ServesIff` says that nothing else loses a key.
- The stored views of a host can disagree with its session for good: register, heartbeat, drain and reap release the lock
  before they write, so a pick in between is overwritten (`DelayedWrites.HeartbeatOverwritesPick`). Wherever no write is
  under way the views agree throughout a run if and only if every last delayed write of a host carries what the host
  still has (`DelayedWrites.SettledIffCareful`). The region row is always right in the end
  (`DelayedWrites.RegionRowSettles`).
- A colon in a project id can merge two idempotency keys, and a colon in a host id lets one host delete another's
  warm-pool rows (`IdempotentDispatch.ColonsMergeSlots`, `HostTable.ColonDeletesForeignRows`). Both happen exactly when
  one id followed by a colon begins the other (`IdempotentDispatch.ProjectsInterfereIff`, `HostTable.HostsInterfereIff`).
- Warm-pool rows add up to a host's report exactly when no count is negative and a warm function with an empty id does
  not meet a blank pool (`HostViews.HostTotalsExactIff`). A connected host of another region is counted by `Stats` but
  not in the region row; the two agree exactly when such hosts offer nothing (`HostTable.StatsAgreeIff`).
- Calls on the stream object that are not awaited can be reordered or lost, exactly when one gets ahead of a suspended
  write or sends data after an end (`SuspendedCalls.InOrderIffInTurn`).
- The capacity test of subnet carving multiplies in 32 bits. From /1 on it is exact if and only if the product does not
  wrap or what is left of it exceeds the network; a /0 network is accepted only when the product wraps to zero. A wrapped
  product can let blocks share addresses (`SubnetCarving.CapacityTestIsExactIff`,
  `SubnetCarving.WrappedCapacityTestSharesAddresses`). An accepted pool is well carved if and only if its blocks fit the
  network (`SubnetCarving.WellCarvedIffFits`).
- An execution that ends in an error after its stream has begun gets a second header, and the error text is appended to
  what was streamed. In every other case there is exactly one header (`HttpStream.ServeDirect`).
- Delivering a final report again keeps one bill per attempt but can raise it (`Assignments.LaterRedeliveryRaisesBill`).
  It does so exactly when the attempt had started and another whole millisecond has passed
  (`Assignments.RedeliveryKeepsBillIff`).

## Model

| member | source | states |
|---|---|---|
| MemoryStore.EarlierIsStrict | internal/store/memory/store.go:389-419 | the claim order never holds both ways |
| MemoryStore.EarlierTransitive | internal/store/memory/store.go:389-419 | the claim order is transitive |
| MemoryStore.EarlierTotal | internal/store/memory/store.go:389-419 | jobs with different ids are always ordered |
| MemoryStore.NextIsUnique | internal/store/memory/store.go:389-419 | at most one job is the next to be claimed, whatever the scan order |
| MemoryStore.Store.CountActive | internal/store/memory/store.go:350-369 | the loop counts exactly the project's jobs that are queued, scheduling, assigned, running or retrying |
| MemoryStore.Store.ClaimNext | internal/store/memory/store.go:389-419 | fails exactly when no job is queued or retrying; otherwise takes the one of least update time, then creation time, then id, marks it as being scheduled, so that exactly it is no longer claimable, and changes no other row |
| MemoryStore.Store.RequeueStale | internal/store/memory/store.go:421-443 | exactly the scheduling jobs not updated since the cutoff go back to the queue |
| MemoryStore.RequeueReturnsStaleClaims | internal/store/memory/store.go:421-443 | exactly those jobs are queued again, without a region and with the reason; every other job is as it was |
| MemoryStore.ListedIff | internal/store/memory/store.go:530-543 | an attempt is listed if and only if it is assigned, starting or running and its lease is set and not later than the cutoff |
| Text.LessIff | internal/store/memory/store.go:404-407 | ids are compared at their first difference, a proper prefix first |
| MemoryStore.Store.ListExpiredAttempts | internal/store/memory/store.go:530-543 | lists every live attempt whose lease is set and has expired, each once, and nothing else |
| Scheduler.FirstAnswerDecides | internal/scheduler/service.go:508-621 | the first candidate that does not refuse decides whether the dispatch succeeds or meets exhausted capacity; if all refuse it fails |
| Scheduler.OffersGiveVerdict | internal/scheduler/service.go:508-621 | whatever the tables, a dispatch ends with that verdict |
| Scheduler.DispatchAccounting | internal/scheduler/service.go:479-621 | for any candidates and answers: exactly one new live attempt, of this job and region, on success and none on failure; the count rises by one exactly on success; on failure the job is queued without a region; all other rows stay |
| Scheduler.AskedLeavesAttempt | internal/scheduler/service.go:508-621 | every candidate asked leaves an attempt of this job, version and region: assigned, with thirty seconds of lease and its placement, if it accepted, failed with its error if not |
| Scheduler.OnlyAskedLeaveAttempts | internal/scheduler/service.go:508-621 | no other attempt is made: candidates after the first that does not refuse are not asked |
| Scheduler.JobSaysWhy | internal/scheduler/service.go:508-621 | a placed job names the candidate that took it; an unplaced one carries every refusal, in order and joined; after exhausted capacity it carries no error |
| Scheduler.RoundWithoutOffers | internal/scheduler/service.go:436-507 | over budget or without its version a job fails for good and says which, in this order; without artifact or ranking it is queued with the reason; no attempt is made |
| Scheduler.RoundOutcome | internal/scheduler/service.go:436-477 | a round takes exactly its job out of the claimable ones unless its dispatch failed, and ends the pass exactly on exhausted capacity |
| Scheduler.OffersTouchOneJob | internal/scheduler/service.go:479-621 | a dispatch rewrites no job row but its own |
| SchedulingPass.RoundHasOutcome | internal/scheduler/service.go:436-477 | what a round does to the queue follows from the claimed job and the candidates' answers alone: it takes its job out, puts it back, or stops the pass |
| SchedulingPass.QueueFallsByTaken | internal/scheduler/service.go:424-477 | after any number of rounds the queue is shorter by exactly the jobs taken out |
| SchedulingPass.PassEndsIff | internal/scheduler/service.go:424-434 | a pass ends if and only if some round meets exhausted capacity or as many jobs are taken as were claimable |
| SchedulingPass.FitPassEndsIff | internal/scheduler/service.go:424-477 | when every waiting job is within budget and has its version, the pass ends if and only if some answer is exhausted capacity or as many dispatches succeed as there were claimable jobs |
| SchedulingPass.FitPassTakes | internal/scheduler/service.go:436-477 | among such jobs, a pass still on has taken exactly one job per successful dispatch |
| SchedulingPass.RefusalsNeverEnd | internal/scheduler/service.go:424-477 | a pass whose dispatchers only refuse is never over, after however many rounds, and keeps its queue |
| SchedulingPass.SettledPassEnds | internal/scheduler/service.go:424-434 | when every dispatch is accepted or meets exhausted capacity, the pass ends within one round more than there were claimable jobs |
| Scheduler.EnqueueExecution | internal/scheduler/service.go:183-223 | refused exactly with 200 active jobs of the project; otherwise stores one new queued job with the payload and the version's project and budget |
| Scheduler.RetryExecution | internal/scheduler/service.go:239-256 | succeeds exactly for a known job within its budget, which becomes retrying, without error and region and with its count kept |
| Scheduler.OfferJob | internal/scheduler/service.go:508-621 | the loop over candidates does what the specification of offers says |
| Scheduler.DispatchJobAttempt | internal/scheduler/service.go:479-621 | lookup failures and exhausted candidates included, the tables become those of the specified dispatch |
| Scheduler.ScheduleNext | internal/scheduler/service.go:436-477 | claims the unique next job and leaves the tables of the specified round |
| SchedulingPass.SchedulePending | internal/scheduler/service.go:424-434 | whenever the pass ends, the loop leaves its tables: the queue shorter by the jobs taken, and empty unless capacity was exhausted |
| Scheduler.RecoverStaleScheduling | internal/scheduler/service.go:720-740 | exactly the claims not written for ten seconds go back to the queue, and are counted |
| Assignments.HandleAssignmentUpdate | internal/coordinator/service.go:601-743 | attempt, job and cost rows become those of the specified report; unknown attempts or jobs change nothing |
| Assignments.ReportSettles | internal/coordinator/service.go:646-702 | a final report ends the attempt so that no later recovery lists it, a starting or running one renews its lease for thirty seconds, one of unspecified state leaves lease and job as they were; the job is claimable exactly after a failure within budget and carries a result after a final report; other rows stay |
| Assignments.ReportRows | internal/coordinator/service.go:646-702 | what each report makes of attempt and job, field by field: states, errors, start, lease, result, retry within budget |
| Assignments.ReportIsBilled | internal/coordinator/service.go:1096-1137 | a report is billed exactly when it is final and version and project are known; the bill names tenant, project, job, attempt, host, region and start mode and amounts to the milliseconds from the start, but at least one, or none for a start in the future |
| Assignments.RetryInBackground | internal/coordinator/service.go:728-741 | the job is retrying within its budget; beyond it the latest record fails with the reason |
| Assignments.PlacementKeepsLease | internal/coordinator/service.go:404-422 | placing an attempt names its host, start mode and time, neither renews nor ends its lease, so that recovery lists the same attempts at the same times, and changes no other row |
| Assignments.RuntimeGrows | internal/coordinator/service.go:1096-1137 | a later finish never lowers the billed milliseconds |
| Assignments.RedeliveredReport | internal/coordinator/service.go:646-727 | a final report delivered again leaves one bill under the same key, of at least the earlier amount |
| Assignments.RedeliveryKeepsBillIff | internal/coordinator/service.go:646-727 | the second delivery leaves the amount exactly when the attempt never started or no further whole millisecond has passed |
| Assignments.LaterRedeliveryRaisesBill | internal/coordinator/service.go:646-727 | an attempt billed for one millisecond and, on redelivery, for three |
| Recovery.SweptTwice | internal/recovery/service.go:67-110 | sweeping a job a second time gives the state sweeping it once gives |
| Recovery.SweepSucceeds | internal/recovery/service.go:51-65 | a pass over the listed attempts succeeds and adds and removes no rows |
| Recovery.SweptAttempts | internal/recovery/service.go:51-110 | each listed attempt is failed with the lease error, its lease ended and nothing else of it changed; every other attempt is untouched |
| Recovery.RecoverSettles | internal/recovery/service.go:67-110 | the second look: an attempt that has ended or was renewed since it was listed is spared, any other is failed together with its job's retry or failure |
| Recovery.SweptJobs | internal/recovery/service.go:51-110 | jobs owning one or several listed attempts are retrying within budget and failed otherwise; all others are untouched |
| Recovery.RecoverAttempt | internal/recovery/service.go:67-110 | does what the specified recovery does, failing only on a missing row |
| Recovery.RecoverExpiredAttempts | internal/recovery/service.go:51-65 | the loop over the expired list leaves the tables as far as the pass gets, and succeeds exactly when it gets to the end |
| Recovery.PassReaches | internal/recovery/service.go:51-65 | a pass that does not get to the end stopped at a listed attempt whose row or job is missing |
| Lifecycle.EveryStepAdvances | internal/scheduler/service.go:436-621 | every service operation stamps each job row it writes later than all earlier operations, keeps identity and budget of jobs, and raises the count exactly by what was accepted |
| Lifecycle.RoundJobs | internal/scheduler/service.go:436-477 | a scheduling round rewrites one job and counts exactly its acceptance |
| Lifecycle.SweepJob | internal/recovery/service.go:51-110 | a recovery pass within a run settles exactly the owners of expired attempts |
| Lifecycle.SweepAttempt | internal/recovery/service.go:51-110 | a recovery pass within a run fails exactly the expired attempts |
| Lifecycle.ReceiveEffect | internal/coordinator/service.go:601-743 | a report rewrites its attempt and its job, never the count, and bills at most its own attempt |
| Lifecycle.InvKept | internal/coordinator/service.go:601-743 | every operation keeps: counts equal accepted assignments within budget, leases fresh, bills sound |
| Lifecycle.InvAlways | internal/scheduler/service.go:436-621 | the invariant holds in every world of every run |
| Lifecycle.AcceptedWithinBudget | internal/scheduler/service.go:583-586 | with atomic operations the count is the number of accepted assignments and at most the budget plus one |
| Lifecycle.LeasesAreFresh | internal/store/memory/store.go:530-543 | after a pass begun at some time, every live attempt was written within the thirty seconds before it, and its lease had not expired |
| Lifecycle.BillsAreSound | internal/coordinator/service.go:1096-1137 | however often reports come: one bill per attempt, at least a millisecond, memory times that, warm time exactly for warm starts |
| Lifecycle.ClaimsAreOld | internal/store/memory/store.go:389-419 | while a claimable job waits, only jobs present before it began to wait and not written since are claimed |
| Lifecycle.ClaimedAtMostOnce | internal/store/memory/store.go:389-443 | while a claimable job waits, no other job is claimed twice |
| Lifecycle.BoundedOvertaking | internal/store/memory/store.go:389-443 | a waiting job is overtaken fewer times than there were jobs, and by none enqueued later |
| Outcomes.JobsFollowDiagram | internal/coordinator/service.go:646-702 | every operation takes every job where a state diagram says that looks only at the job, the event and the replies in it; only a final report changes a result |
| Outcomes.NewJobsAreQueued | internal/scheduler/service.go:183-203 | only enqueueing makes jobs, queued and with the request's payload, version, project and budget |
| Outcomes.FailedAreSpentIff | internal/coordinator/service.go:679-701 | throughout a run every failed job was accepted as often as its budget allows, if and only if no failure was reported early to a coordinator that cannot retry |
| Outcomes.EarlyGiveUp | internal/coordinator/service.go:696-701 | such a report fails a job with budget left |
| Outcomes.ResultIsLastReport | internal/coordinator/service.go:646-702 | in every run a job's result is that of the last final report about it, and it has succeeded only if that report said so |
| Outcomes.JobsKeepTheirRequest | internal/scheduler/service.go:183-203 | in every run a job keeps what it was enqueued with |
| Leases.AttemptsFollowDiagram | internal/coordinator/service.go:646-702 | every operation takes every attempt where its state diagram says; only reports of a start or of running renew a lease or fix a start |
| Leases.NewAttemptsAreOffers | internal/scheduler/service.go:508-621 | only scheduling rounds make attempts, one for each candidate asked |
| Leases.LeaseIsExact | internal/coordinator/service.go:650-666 | in every run the lease of a live attempt ends exactly thirty seconds after its dispatch or the last report of a start or of running |
| Leases.SweptIffSilent | internal/recovery/service.go:51-110 | a recovery pass fails a live attempt if and only if there was no such report or dispatch for thirty seconds |
| StepRefinement.RoundInSteps | internal/scheduler/service.go:436-621 | claim, offers, acceptance and count as separate store calls, undisturbed, give the jobs of the whole round and count its acceptance |
| StepRefinement.ReportInSteps | internal/coordinator/service.go:639-702 | read and write of a report, undisturbed, give the jobs of the whole report |
| StepRefinement.RetryInSteps | internal/coordinator/service.go:728-741 | the same for the background retry, refused or not |
| StepRefinement.RecoveryInSteps | internal/recovery/service.go:67-110 | the same for the recovery of an attempt, its retry included |
| StepRefinement.RequeueInOneStep | internal/store/memory/store.go:421-443 | the requeueing step on exactly the stale claims is the store's requeueing |
| RetryBudget.ClaimIsExclusive | internal/store/memory/store.go:389-419 | however the store calls interleave, a claimed job is not claimed again before a requeue, report, retry or recovery writes it |
| RetryBudget.StepKeepsInv | internal/scheduler/service.go:436-477 | every store call of every service keeps all stored and held copies within budget |
| RetryBudget.BudgetHoldsOnEveryCopy | internal/scheduler/service.go:583-586 | however reads and write-backs interleave, every stored or in-flight copy has at most budget plus one attempts and never counts more than was accepted |
| RetryBudget.LostUpdateExceedsBudget | internal/coordinator/service.go:639-702 | a run in which a job is accepted more often than its budget allows |
| RetryBudget.CarefulRunsKeepBudget | internal/recovery/service.go:67-109 | without write-backs over unseen counts, records account for every acceptance, which the budget then bounds |
| RetryBudget.StepAccountsIffCareful | internal/scheduler/service.go:580-586 | a store call loses an acceptance exactly when it writes over an unseen count, or doubles or drops an uncounted acceptance |
| RetryBudget.AccountedIffCareful | internal/coordinator/service.go:639-718 | the records account for every acceptance throughout a run if and only if all its steps are careful |
| IdempotentDispatch.StepKeepsInv | internal/scheduler/service.go:111-169 | every store call of every concurrent call keeps ownership of records, jobs and results |
| IdempotentDispatch.InvAlways | internal/scheduler/service.go:111-169 | the invariant holds after every interleaving, crashes and store errors included |
| IdempotentDispatch.AtMostOneJob | internal/scheduler/service.go:111-169 | under any interleaving one key of one project has at most one job |
| IdempotentDispatch.SuccessfulCallsAgree | internal/scheduler/service.go:225-237 | all calls that succeed on a key return the same job and carry the creator's hash |
| IdempotentDispatch.OnlyTheCreatorDeletes | internal/scheduler/service.go:153-156 | a record disappears only through the call that created it and stored no job, and never changes its creator |
| IdempotentDispatch.JobKeepsItsRecord | internal/scheduler/service.go:111-169 | a stored job's record stays, held by the call that stored the job |
| IdempotentDispatch.AbandonedSlotNeverServes | internal/scheduler/service.go:162-166 | once a creator stops with its record pending, no later call on the key ever returns a job |
| IdempotentDispatch.FailedUpdateAbandonsTheSlot | internal/scheduler/service.go:162-166 | such a key arises when the update of the record fails |
| IdempotentDispatch.ServesIff | internal/scheduler/service.go:111-169 | for any request: some continuation lets a new call return a job if and only if the key is not abandoned and, if its record is of another request, the record's creator has neither stored a job nor stopped |
| IdempotentDispatch.FixedSlotNeverServes | internal/scheduler/service.go:225-237 | once the creator has stored its job or stopped, no later call with another hash ever returns a job |
| IdempotentDispatch.UndisturbedCallSucceeds | internal/scheduler/service.go:111-169 | a call on a free key that nothing disturbs stores one job and a completed record |
| IdempotentDispatch.UndisturbedReplayReturnsTheJob | internal/scheduler/service.go:225-237 | a repeated request that nothing disturbs returns the recorded job and changes nothing |
| IdempotentDispatch.UndisturbedRefusalLeavesNoTrace | internal/scheduler/service.go:148-157 | a call on a free key that is refused, undisturbed, leaves both tables as they were |
| IdempotentDispatch.UndisturbedConflictIsRefused | internal/scheduler/service.go:225-237 | a request that meets another's record, or a pending one, is refused and changes nothing |
| IdempotentDispatch.UnkeyedCallStoresAJob | internal/scheduler/service.go:170-180 | a call without a key stores a job of its own and touches no record |
| IdempotentDispatch.KeyIsInjective | internal/store/memory/store.go:773-775 | composite keys differ when scope, project or key differ and scope and project have no colon |
| IdempotentDispatch.SameSlotIff | internal/store/memory/store.go:773-775 | exactly when two requests share a composite key, for any projects and keys |
| IdempotentDispatch.ProjectsInterfereIff | internal/store/memory/store.go:773-775 | two projects can share a key exactly when one id followed by a colon begins the other |
| IdempotentDispatch.ColonsMergeSlots | internal/store/memory/store.go:773-775 | two projects, one with a colon, that share a key |
| IdempotentDispatch.IdempotencyTable.Create | internal/store/memory/store.go:133-142 | creates exactly when the key is free, and otherwise changes nothing |
| IdempotentDispatch.ReplayExecution | internal/scheduler/service.go:225-237 | returns a job exactly when the record is completed with the same hash and its job exists; reports a conflict exactly for another hash and progress exactly for a record that is not completed |
| IdempotentDispatch.DispatchExecutionIdempotent | internal/scheduler/service.go:81-181 | on a taken key nothing changes, and the recorded job is returned if and only if the record is completed with the same hash and its job exists; on a free key, or without one, a job is stored unless the project is at its quota, with a key also its completed record, and a refusal leaves no trace |
| Ranking.CandidateIsRead | internal/scheduler/service.go:632-673 | a candidate shows the backlog, locality, totals and heartbeat that were read, and is unhealthy exactly when its row is not active or its heartbeat is too old |
| Ranking.BetterIsLexicographic | internal/scheduler/service.go:675-698 | the comparator is the lexicographic order on health, artifact locality, backlog, warm functions, blank pools, hosts and heartbeat, with the region name last |
| Ranking.BetterIsTotal | internal/scheduler/service.go:674-699 | candidates of different regions never tie under the eight keys |
| Ranking.BetterIsStrictWeak | internal/scheduler/service.go:674-699 | the comparator is a strict order fit for sorting |
| Ranking.RankingIsCanonical | internal/scheduler/service.go:632-701 | regions listed in any order have one ranking |
| Ranking.RankableWhateverTheOrder | internal/scheduler/service.go:632-673 | whether ranking succeeds does not depend on the order of the regions |
| Ranking.HealthyFirst | internal/scheduler/service.go:674-699 | no unhealthy region precedes a healthy one |
| Ranking.RankDispatchers | internal/scheduler/service.go:632-701 | succeeds exactly when all dispatchable regions can be read and there is one; returns the sorted permutation of their candidates |
| HostTable.PrefixIsExact | internal/store/memory/store.go:582-595 | a host's key prefix selects exactly its own rows when names have no colon |
| HostTable.PrefixCoversIff | internal/store/memory/store.go:582-595 | exactly when the prefix of one host covers a given row of another, for any names |
| HostTable.HostsInterfereIff | internal/store/memory/store.go:582-595 | two hosts of a region can hit each other's rows exactly when one id followed by a colon begins the other |
| HostTable.ColonDeletesForeignRows | internal/store/memory/store.go:582-595 | with a colon in a host id another host's rows are deleted |
| HostTable.ReplacedRows | internal/store/memory/store.go:582-595 | after replacing, each pool of the host has a row under its names with its count and time, and the only other rows are those outside the prefix |
| HostTable.AvailableHostsAreCounted | internal/coordinator/service.go:90-108 | the available hosts of the totals are the active hosts with a free slot |
| HostTable.RowShowsTotals | internal/coordinator/service.go:1145-1189 | the region row shows the totals of the connected hosts of the region, is active exactly when one of them is, and otherwise degraded with the reason |
| HostTable.RowShowsLatest | internal/coordinator/service.go:1166-1172 | its heartbeat is the latest of those hosts, or the time of writing if none was heard |
| HostTable.GatherAdds | internal/coordinator/service.go:1145-1169 | the loop may visit the hosts in any order |
| HostTable.StatsAgreeIff | internal/coordinator/service.go:1150-1152 | Stats and the region row agree exactly when the connected hosts of other regions offer nothing |
| HostTable.ForeignHostSplitsTotals | internal/coordinator/service.go:1150-1152 | a connected host of another region with a blank pool makes them differ |
| HostViews.WriteKeepsPoolsAgree | internal/store/memory/store.go:582-595 | replacing one host's rows keeps the warm-pool rows exactly those of the host rows |
| HostViews.PoolsAreDetermined | internal/coordinator/service.go:1064-1094 | host rows determine the warm-pool rows up to the time of writing |
| HostViews.HostTotalsExactIff | internal/coordinator/service.go:1064-1094 | a host's rows add up to its report exactly when no count is negative and no warm function with an empty id meets a blank pool |
| HostViews.PoolTotals | internal/coordinator/service.go:1064-1094 | the warm-pool rows hold every warm instance of the active host rows exactly once |
| HostViews.InvGivesAgreement | internal/coordinator/service.go:1145-1189 | without orphaned rows, the invariant makes all three views agree with the sessions, and the region totals equal both the totals of the sessions and the sums of the rows |
| HostRuns.StepKeepsInv | internal/coordinator/service.go:541-595 | register, heartbeat, pick, prepare, take back, drain, leave, reap and restart keep the invariant |
| HostRuns.InvAlways | internal/coordinator/service.go:794-1024 | the invariant holds in every run; counts never become negative |
| HostRuns.ViewsAlwaysAgree | internal/coordinator/service.go:541-595 | after every operation of every run from an empty store, host rows, warm-pool rows and region row agree with the connected hosts and with Stats |
| HostRuns.PassHealsRestart | internal/coordinator/service.go:972-1024 | after a restart, the first full reap pass over hosts fallen silent makes the views agree again |
| HostRuns.ReservationsAreConserved | internal/coordinator/service.go:794-935 | between reports, available plus reserved and not taken back stays the same for slots, full-network slots, blank and function pools |
| HostRuns.ReportSetsAmounts | internal/coordinator/service.go:541-595 | that constant is what the report said |
| HostRuns.RestoreUndoesReserve | internal/coordinator/service.go:901-920 | taking a reservation back gives the host as it was |
| HostRuns.TakingBackUndoesPicking | internal/coordinator/service.go:794-935 | pick followed by its restore leaves sessions and all stored views as they were, up to times of writing |
| DelayedWrites.StepKeepsInv | internal/coordinator/service.go:541-595 | every locked operation and every delayed store call keeps rows, warm-pool rows and region row in order |
| DelayedWrites.StepSettlesIffCareful | internal/coordinator/service.go:555-563 | a store call leaves a host whose views disagree with no write under way exactly when it is the host's last delayed write and its copy is out of date |
| DelayedWrites.SettledIffCareful | internal/coordinator/service.go:541-595 | in any run, host and warm-pool rows agree with the sessions wherever no write is under way, throughout, if and only if no such write happens |
| DelayedWrites.CarefulRunsAgree | internal/coordinator/service.go:995-1024 | after a run without such writes and with nothing under way, all three views agree with the connected hosts |
| DelayedWrites.RegionRowSettles | internal/coordinator/service.go:1139-1189 | after any run with nothing under way, the region row follows from the connected hosts |
| DelayedWrites.HeartbeatOverwritesPick | internal/coordinator/service.go:574-595 | a run after which, with nothing under way, a stored host row is not the session |
| DelayedWrites.UndisturbedIsAtomic | internal/coordinator/service.go:541-595 | the delayed store calls of an operation, undisturbed, do what it does in one step |
| HostRuns.EventOnHost | internal/coordinator/service.go:541-595 | what registering, a heartbeat, a drain and leaving make of the host, field by field; other hosts stay |
| HostRuns.HeartbeatIsLast | internal/coordinator/service.go:574-595 | in every run a connected host carries the time of its last registration or heartbeat |
| HostRuns.ReapedIffSilent | internal/coordinator/service.go:995-1024 | a reap takes a connected host down if and only if it was not heard of since the cutoff, however old the listed copy |
| HostRuns.ReapOnHost | internal/coordinator/service.go:995-1024 | what reaping makes of its host, connected or not; other hosts stay |
| HostRuns.WarmerIsPreferredIff | internal/coordinator/service.go:803-817 | exactly when the warmer of two hosts has the better score, then the one with more blank pools, then the one with more slots |
| HostRuns.BlankPoolsOutweighWarmth | internal/coordinator/service.go:803-817 | two hosts of which the warm one is not the best |
| HostRuns.DrainIsFinal | internal/coordinator/service.go:145-155 | a drained host is not picked, prepared or found warm again before it registers again, whatever comes between |
| Coordinator.ListReplacesPools | internal/store/memory/store.go:582-595 | deleting by prefix and writing the list gives exactly the specified rows, also when ids collide |
| Coordinator.WarmPoolsForHost | internal/coordinator/service.go:1064-1094 | lists the blank pool and then each warm function once in order of id, and nothing for an inactive host |
| Coordinator.CountWarm | internal/coordinator/service.go:103-105 | the inner loop adds up a host's warm functions |
| Coordinator.Tally | internal/coordinator/service.go:90-108 | the loop of Stats, in any order, computes the totals of the active hosts |
| Coordinator.GatherHosts | internal/coordinator/service.go:1145-1169 | the loop over the connected hosts, in any order, gathers totals, latest heartbeat and activity of the hosts of the region |
| RegionService.RegionStore.ReplaceWarmPoolsForHost | internal/store/memory/store.go:582-595 | rows under the prefix go, the given rows come, all others stay |
| RegionService.RegionStore.ListHostsByRegion | internal/store/memory/store.go:570-580 | lists exactly the rows of the region |
| RegionService.BestHost | internal/coordinator/service.go:794-823 | fails exactly when no host is eligible; otherwise returns one of the best weighted score |
| RegionService.BestHostToPrepare | internal/coordinator/service.go:857-873 | the same for preparation, by blank pools and slots |
| RegionService.FindAlreadyWarm | internal/coordinator/service.go:849-856 | finds an active host with the function warm exactly when there is one |
| RegionService.Service.Stats | internal/coordinator/service.go:90-108 | returns the totals of the connected active hosts |
| RegionService.Service.PersistRegion | internal/coordinator/service.go:1139-1189 | writes the region row that follows from the connected hosts of this region |
| RegionService.Service.StoreHost | internal/coordinator/service.go:557-563 | host row, warm-pool rows and region row become those of the specified write |
| RegionService.Service.RegisterHostSession | internal/coordinator/service.go:541-564 | table and store become those of a register event |
| RegionService.Service.UpdateHeartbeat | internal/coordinator/service.go:574-595 | those of a heartbeat; refused for hosts that are not connected |
| RegionService.Service.PickHost | internal/coordinator/service.go:794-839 | fails exactly when no host is eligible, changing nothing; otherwise those of a pick of a best host, started from a warm function exactly if it has one, else from a blank pool if it has one, else cold |
| RegionService.Service.PickWarmHost | internal/coordinator/service.go:841-883 | an already warm host without change, else those of a reservation on a best host; fails exactly when there is neither |
| RegionService.Service.RestoreHostReservation | internal/coordinator/service.go:901-920 | those of taking a reservation back |
| RegionService.Service.RestorePreparationReservation | internal/coordinator/service.go:922-935 | those of taking a preparation back |
| RegionService.Service.DrainHost | internal/coordinator/service.go:145-170 | those of a drain; refused for hosts that are not connected |
| RegionService.Service.MarkHostDown | internal/coordinator/service.go:937-954 | those of a host leaving |
| RegionService.Service.MarkStoredHostDown | internal/coordinator/service.go:995-1024 | those of reaping one host, connected or not, unless it was heard of since the cutoff |
| RegionService.Service.ReapStaleHosts | internal/coordinator/service.go:972-993 | a pass that reaches exactly listed copies, and every row of the region that is up and has been silent for twenty seconds |
| RegionService.StoredViewsAgree | internal/coordinator/service.go:541-595 | after any operations on an empty store, the stored region row shows what Stats returns and what the stored warm-pool rows add up to, and stored host rows are the sessions |
| TapPool.NearestFree | internal/firecracker/microvm/network_pool.go:117-132 | the scan finds the free tap at the least cyclic distance from the cursor |
| TapPool.AcquireNextFailsOnlyWhenExhausted | internal/firecracker/microvm/network_pool.go:117-132 | acquiring fails exactly when every tap is in use |
| TapPool.CallDoesItsWork | internal/firecracker/microvm/network_pool.go:58-143 | acquiring grants the nearest free tap, or the named one exactly when it is known and free, to one new lease; the first release of a lease frees its tap |
| TapPool.ApplyKeepsWellFormed | internal/firecracker/microvm/network_pool.go:117-143 | every call keeps the cursor in range and the tables aligned |
| TapPool.ApplyKeepsExclusive | internal/firecracker/microvm/network_pool.go:58-143 | every call keeps a tap in use exactly when one unreleased lease holds it |
| TapPool.TapsStayExclusive | internal/firecracker/microvm/network_pool.go:58-143 | so in every world of every run no two live leases share a tap |
| TapPool.SecondReleaseIsHarmless | internal/firecracker/microvm/network_pool.go:108-115 | releasing a lease again changes nothing, even after its tap was leased anew |
| TapPool.RoundRobinIsFair | internal/firecracker/microvm/network_pool.go:117-132 | a tap that stays free is handed out within as many grants as there are taps |
| TapPool.Scan | internal/firecracker/microvm/network_pool.go:121-131 | the loop returns the first free tap from the cursor on, or none |
| TapPool.NetworkLease.Release | internal/firecracker/microvm/network_pool.go:108-115 | frees the tap once and does nothing afterwards |
| TapPool.NetworkPool.AcquireNextLocked | internal/firecracker/microvm/network_pool.go:117-132 | takes the specified tap and moves the cursor past it |
| TapPool.NetworkPool.Acquire | internal/firecracker/microvm/network_pool.go:58-76 | the pool and its leases become those of the specified acquire |
| TapPool.NetworkPool.AcquireSpecific | internal/firecracker/microvm/network_pool.go:78-106 | the same for a named tap; unknown and blank names are refused |
| TapPool.NewNetworkPool | internal/firecracker/microvm/network_pool.go:34-56 | refused exactly for an incomplete entry; otherwise the taps are those of the entries in order, all free, each with the last entry under its name |
| SubnetCarving.IPv4RoundTrip | internal/firecracker/microvm/network_pool.go:232-244 | a 32-bit value survives conversion to an address and back |
| SubnetCarving.AddressRoundTrip | internal/firecracker/microvm/network_pool.go:232-244 | an address survives conversion to a 32-bit value and back |
| SubnetCarving.GuestMACInjective | internal/firecracker/microvm/network_pool.go:216-222 | different guests have different hardware addresses |
| SubnetCarving.BuildTapPoolConfigs | internal/firecracker/microvm/network_pool.go:169-214 | refused exactly by the range and capacity tests; otherwise the i-th entry is named after the prefix and i, and the pool is well carved if and only if its blocks fit the network |
| SubnetCarving.WellCarvedIffFits | internal/firecracker/microvm/network_pool.go:191-212 | for any number of entries: blocks inside the CIDR and apart if and only if they fit it |
| SubnetCarving.MaskedIsNetwork | internal/firecracker/microvm/network_pool.go:183 | masking gives the aligned start of the network in which the given address lies |
| SubnetCarving.InCidrIff | internal/firecracker/microvm/network_pool.go:183-193 | the addresses that agree with the CIDR's in its first bits are exactly those from that start on, as many as its size |
| SubnetCarving.ExampleNetwork | internal/firecracker/microvm/network_pool.go:169-214 | 172.16.0.0/24 in subnets of /30: the second tap with its addresses as text |
| Text.DecimalReadsBack | internal/firecracker/microvm/network_pool.go:206 | the decimal text of a number stands for that number |
| Text.Hex2ReadsBack | internal/firecracker/microvm/network_pool.go:216-222 | so does the hexadecimal text of a byte |
| SubnetCarving.CapacityTestIsExactIff | internal/firecracker/microvm/network_pool.go:191-197 | exactly when the 32-bit capacity test accepts just what fits |
| SubnetCarving.WrappedCapacityTestSharesAddresses | internal/firecracker/microvm/network_pool.go:194-197 | an accepted request whose blocks share addresses because the product wrapped |
| SubnetCarving.AcceptedIffCarvable | internal/firecracker/microvm/network_pool.go:187-197 | without wrap and from /1 on, requests are accepted exactly when the blocks fit |
| SubnetCarving.CarvingIsSound | internal/firecracker/microvm/network_pool.go:191-212 | when the blocks fit: the i-th subnet is the i-th block from the start of the CIDR, a block of the netmask, all its addresses agreeing with the CIDR's, gateway and guest are two of its addresses and neither network nor broadcast address, any two blocks are disjoint, and tap names, guest addresses, gateways and hardware addresses all differ |
| SubnetCarving.ConfigIsCarved | internal/firecracker/microvm/network_pool.go:201-211 | one entry: its block, and gateway, guest, hardware address and mask as text |
| SubnetCarving.ConfigsAreApart | internal/firecracker/microvm/network_pool.go:205-211 | two entries differ in tap name, hardware address, guest and gateway |
| SubnetCarving.MaskSelectsBlock | internal/firecracker/microvm/network_pool.go:224-230 | bitwise, the mask maps an address to the start of a block exactly when the address is in the block |
| SubnetCarving.NamesDiffer | internal/firecracker/microvm/network_pool.go:206 | tap names are pairwise distinct |
| SubnetCarving.HostTextsDiffer | internal/firecracker/microvm/network_pool.go:205-211 | addresses of different blocks, or different ones of one block, differ as text and as hardware address |
| NetworkSetup.BuildNetworkPool | internal/firecracker/microvm/network_pool.go:145-167 | refused exactly by the carving tests or by an incomplete single entry; otherwise as many taps as asked for, all different and free, no two with an address in common if the blocks fit; the single entry trimmed; no pool exactly when neither is configured |
| NetworkSetup.LiveLeasesApart | internal/firecracker/microvm/network_pool.go:58-115 | two leases that are not released never share a tap, a guest address, a gateway or a hardware address |
| Text.TrimIsMiddle | internal/firecracker/microvm/network_pool.go:44-51 | trimming takes white space off both ends and all of it |
| NetworkSetup.TrimmedNamesDiffer | internal/firecracker/microvm/network_pool.go:48-51 | numbered tap names still differ after trimming |
| NetworkSetup.CarvedTapsApart | internal/firecracker/microvm/network_pool.go:34-56 | entries that differ pairwise differ pairwise in the pool's table |
| HttpStream.OneHeader | internal/httpapi/server.go:1448-1500 | a response with its header first and once has one header, or is empty |
| HttpStream.WriterIsFaithful | internal/httpapi/server.go:1448-1500 | for every event sequence the header comes at most once and before any body byte, with the status the first opening event asks for, and the body is the chunks before the first end, or nothing for HEAD |
| HttpStream.StreamIsFaithful | internal/runtime/nodeexec/execute.go:393-443 | whatever a function calls, awaiting each call, the events it emits carry exactly what it wrote and the status it asked for |
| HttpStream.WriteFromIsFaithful | internal/runtime/nodeexec/execute.go:465-468 | the chunk loop emits the body in order, nothing lost or repeated, in pieces of at most 32 KiB |
| HttpStream.StreamRoundTrip | internal/runtime/nodeexec/execute.go:444-483 | stream, with awaited calls, and writer together send one header with the status asked for and reproduce the body; results of 64 KiB and more are streamed; if every event arrives |
| HttpStream.WriteResponseBody | internal/httpapi/server.go:2097-2124 | the body is written in one piece, or from 64 KiB on, if the writer can flush, in pieces of at most 256 KiB; no header is added |
| HttpStream.HttpDirectStreamWriter.HandleEvent | internal/httpapi/server.go:1448-1500 | the writer's fields and output become those of the specified step |
| HttpStream.HttpDirectStreamWriter.WriteFunctionResult | internal/httpapi/server.go:2072-2095 | a well-formed result adds one header with its status, 200 for a raw one, and the client's body; a malformed one adds nothing |
| HttpStream.HttpDirectStreamWriter.ReturnDirectResult | internal/httpapi/server.go:1313-1362 | for a result: exactly one header overall, a started stream left as it is, and otherwise the function's status and body, or 502 and the text if there is none; without a result: 502, a second header exactly when the stream had started |
| HttpStream.ServeDirect | internal/httpapi/server.go:1313-1362 | the whole exchange has exactly one header unless the execution ended in an error after its stream began; then there are two, and the body is what was streamed followed by the error text; otherwise status and body are those of the stream, of the result or of the error |
| HttpStream.HttpStream.Start | internal/runtime/nodeexec/execute.go:400-413 | starts once, and throws exactly when closed |
| HttpStream.HttpStream.Write | internal/runtime/nodeexec/execute.go:414-429 | awaited: starts if needed, emits non-empty chunks, and throws exactly when closed |
| HttpStream.HttpStream.End | internal/runtime/nodeexec/execute.go:430-441 | awaited: ends once, after the rest was written |
| HttpStream.HttpStream.FinishHandler | internal/runtime/nodeexec/execute.go:444-483 | large structured results are streamed in pieces of 32 KiB and handed on without a body |
| SuspendedCalls.InOrderIffInTurn | internal/runtime/nodeexec/execute.go:414-441 | for calls that are not awaited: what was written is sent, all of it and in order, if and only if no call gets ahead of a suspended write and none sends data after an end was called |
| SuspendedCalls.InTurnIsFaithful | internal/runtime/nodeexec/execute.go:414-441 | then the events carry exactly the bytes written |
| SuspendedCalls.SecondWriteOvertakes | internal/runtime/nodeexec/execute.go:414-429 | two writes not awaited on a stream that has not started arrive in the wrong order |
| SuspendedCalls.EndLosesWrite | internal/runtime/nodeexec/execute.go:414-441 | an end after such a write loses its data |
| SuspendedCalls.AwaitedIsAtomic | internal/runtime/nodeexec/execute.go:400-441 | awaited calls have the effect they would have in one go |

## Left out

- HostRuns.StepKeepsInv: an operation and its store calls are one step. Between them the property can fail; what holds then
  is in `DelayedWrites`.
- HostRuns.InvAlways: the same grain.
- HostRuns.ViewsAlwaysAgree: the same grain; `DelayedWrites.SettledIffCareful` is the exact condition otherwise.
- RegionService.StoredViewsAgree: the same grain.
- RegionService.Service.RegisterHostSession: table and store change together, although the lock is released before the
  writes; the writes as separate steps are in `DelayedWrites`.
- RegionService.Service.UpdateHeartbeat: as for RegisterHostSession.
- RegionService.Service.DrainHost: as for RegisterHostSession.
- RegionService.Service.MarkStoredHostDown: as for RegisterHostSession.
- DelayedWrites.SettledIffCareful: every operation takes its copy of the host under the lock; the code's register copies the
  map of warm functions just after releasing it. A store call that fails and ends its operation early is not modelled.
- HttpStream.StreamRoundTrip: events may be dropped on the way from the stream to the writer (buffers of the coordinator);
  the lemma is about those that arrive.
- SchedulingPass.SchedulePending: the readings of a pass are given in advance as a sequence of rounds.
- Lifecycle.InvAlways: operations are atomic and the clock advances strictly; the fine-grained counterpart is
  `RetryBudget.BudgetHoldsOnEveryCopy`.
- TapPool.NetworkPool.Acquire: one attempt under the lock, which may find no tap; the polling around it, its cancellation
  and a nil pool are not modelled.
- TapPool.NetworkPool.AcquireSpecific: one attempt under the lock, without the polling and its cancellation.
- HttpStream.HttpStream.Write: as for an awaited call; what happens otherwise is in `SuspendedCalls`, except that a write
  that throws without being awaited may end the process.
- HttpStream.HttpStream.End: as for an awaited call.
- IdempotentDispatch.InvAlways: a store call that reports an error is taken to have changed nothing.
- Host reports give warm counts as a map, so repeated entries of one function in a message are not modelled.
- releaseHostSlot, which no service calls.
- Direct invocations: waiters, buffered updates that may be dropped, and cancellation.
- The race of the execution quota: counting and storing are two calls, modelled as one where the quota matters.
- HTTP headers, trailers, flushing and failed writes to the client; only status, body and their order are modelled.
- 64-bit overflow of counters, durations and costs.
- Postgres, migrations and the leadership lock; the memory store is the reference.
- gRPC, NATS, S3, certificates, AWS secrets, microVM boot, snapshots, vsock and prepared workers.
- Node-agent slot counters, which saturate, so that only weak bounds hold.
- Builds, triggers, websites, API keys, archive checks and the summaries of the HTTP API: request handling around the core.
- JSON, UTF-8, SHA-256 and UUIDs: hashes are compared for equality, new ids are fresh, strings are sequences.
- Logging, metrics and timing fields.
