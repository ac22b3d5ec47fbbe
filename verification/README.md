# FluidBG verification

FluidBG is a Kubernetes operator for blue-green rollouts. This project models the parts of it that
are protocols, state machines and algorithms, and proves what they keep. `dafny verify dfyconfig.toml`
checks all of it.

- **Reconcile lease** (`Lease`, `LeaseProtocol`): operators compete for a Lease object with
  compare-and-swap writes, expiry times and a renewal task. Reads, checks, requests on their way,
  their arrival, renewals and stops of any number of tasks of any number of processes are steps over
  one shared clock.
- **Service Bus relay and drain** (`Queues`, `Relay`, `RelaySafety`, `RelayRouting`,
  `RelayServed`, `DrainReports`, `DrainExact`, `Plugin`):
  workers and drains peek-lock, forward, complete and abandon messages. Each request is a step that
  may fail, succeed without being reported, or find its lock expired. The run mode, the in-flight
  counter and drain status calls are part of the state.
- **HTTP admission** (`HttpAdmission`): the same drain idea with every atomic operation a step.
- **Test-case stores** (`TestCases`, `MemoryStore`, `PostgresStore`, `StoreAgreement`,
  `StoreExpiry`, `CaseAccounting`, `Inception`, `CosmosStore`): the in-memory map, the SQL table and
  the etag store, how far they agree, and what every sequence of operations keeps.
- **Rollouts** (`Phases`, `PhaseOrder`, `Rollout`, `RolloutSafety`, `RolloutEvidence`,
  `RolloutWedges`, `RolloutFreeze`, `Controller`):
  the order on generation and phase under concurrent writers, and the reconcile pass as steps with
  user edits and aborts between any two of its reads and writes.
- **Promotion decisions** (`Promotion`): hard switch, progressive steps, the custom mode and their
  combination, over exact rates.
- **Supporting algorithms** (`EnvPatch`, `JsonValues`, `JsonMerge`, `QueueNames`, `QueueGc`,
  `ChunkedBody`, `ChunkedUtf8`): grouped env patching, JSON merging against RFC 7396, queue naming and
  collection,
  chunked decoding against section 7.1 of RFC 9112 and section 3 of RFC 3629.

Times are integers, in nanoseconds for the stores and in the lease's own ticks; rates are exact;
atomics are sequentially consistent. A run is a sequence of states and steps with every step enabled;
theorems hold for every run and every index.

## What the code does not meet

Each of these is a lemma here, with the exact condition or with a run that shows it.

- The lease excludes exactly if the operators' identities are distinct
  (`ExclusionNeedsDistinctIdentities`); the renewal interval can reach the duration for a configured
  duration of one second and at the 32-bit clamp (`RenewsBeforeExpiry`).
- One drained report of the Service Bus plugin can be wrong, exactly if some worker may send when its
  call begins: because the plugin is active, or because the worker has passed its second look and has a
  destination left (`DrainExact.WrongReportIff`). One of the HTTP plugin can be wrong exactly if it is
  active when the call loads the counter (`HttpAdmission.WrongReportIff`).
- The stores disagree on a retry decrement for a missing case and on timed clean-ups past a case whose
  column is later than its deadline (`StepAgreesIff`, `RegistrationsLagIff`), on fractional or large
  timeouts and on trigger times finer than a microsecond (`RecordSurvives`; only by that rounding,
  `RoundedSequencesAgree`), on references of which one and U+001F begin the other (`KeysCollideIff`),
  and, for the etag store, on a second registration (`SecondRegistrationDiffers`).
- Hard switch can roll back although the pending cases could still meet the threshold
  (`RollbackIsFinalIff`, `PrematureRollback`). Progressive steps beside the custom mode never advance
  (`ProgressiveWithCustomNeverAdvances`).
- The status patch to Invalid is not guarded and can replace Completed or RolledBack
  (`BlindInvalidKeepsOrderIff`).
- A rollout whose generation is outdated before its snapshot was taken never acts, finishes or restarts
  again, forced replacement included (`WedgedForever`). Of the rollouts that satisfy the invariant, so
  have no phase Invalid and no lost write of their generation, no other one is stuck (`StuckIff`). An
  edit right after a restart leads there, and so does an aborted first pass with a later edit
  (`EditAfterRestartWedges`, `AbortBeforeSnapshotWedges`).
- A rollout whose generation could not be written may act on another spec than its recorded one. With
  such writes lost at will, it is safe from that exactly if it is over, or its generation is recorded and
  the snapshot, if any, is of that generation (`FrozenIff`): without a generation it acts on every edit
  (`LostGenerationUnfreezes`), and with one recorded after the snapshot it can be frozen on a spec which
  that generation does not name (`LateGenerationFreezesAnother`).
- The merge equals RFC 7396, and is idempotent, exactly if no object of the patch with a null member
  meets something that is no object (`MergesByStandardIff`, `IdempotentIff`).
- Grouping lets an assignment that names its container win over a later one that does not
  (`AgreeIff`), and where two targets stand for one deployment it also patches what the other was assigned
  (`TargetsApartIff`).
- The chunk decoder refuses white space before a semicolon and extensions that are not UTF-8
  (`StandardDecodesIff`), and does not look at the two bytes after the data (`DecodesIff`).
- Cleanup sets a variable back only if the role names its base queue (`RoleRestoredIff`); shadows of
  base queues outlive the cleanup (`CleanupUndoesPrepare`) and are collected, while their inception is
  listed, exactly if they carry the prefix and no listed inception manages a queue of that name
  (`BaseShadowSurvivesIff`).

## Model

| member | source | states |
|---|---|---|
| Lease.RenewsBeforeExpiry | operator/src/controller.rs:184-203 | the configured renewal interval is shorter than the written duration exactly for durations of at least two seconds below the 32-bit clamp |
| Lease.ConfiguredAsGiven | operator/src/controller.rs:178-203 | the identity is the given one, the duration the configured number of seconds or 30, and the renewal interval the configured one or 10 where that is below the duration, else a third of the duration and at least one second |
| Lease.AcquirableExactlyFromExpiry | operator/src/controller/lease.rs:208-256 | what an acquisition or a renewal has written can be taken by its own identity at any time and by another exactly from its stamp plus the configured seconds on, or one second or 2^31 - 1 where the configuration is out of that range |
| Lease.AcquirableIff | operator/src/controller/lease.rs:208-227 | any stored lease can be taken exactly if it is empty, own, without a positive duration or without a time, or if its duration has passed since the renew time, or without that since the acquire time |
| Lease.LeaseObject.Put | operator/src/controller/lease.rs:127-152 | a create or replace is accepted only at the resource version that its writer has read, and appends exactly that version |
| Lease.LeaseObject.TryAcquire | operator/src/controller/lease.rs:116-155 | acquires exactly when nothing else was stored since the read and the read lease is missing, own or expired; the stored lease has this holder, both stamps, the configured duration and the transitions, one more for a new holder |
| Lease.LeaseObject.Renew | operator/src/controller/lease.rs:181-206 | renews exactly an existing lease that is still held by this identity and was not replaced since the read; the stored lease has the new stamp, the configured duration and the same transitions |
| LeaseProtocol.HeldUntilExpiry | operator/src/controller/lease.rs:116-206 | from an accepted write on, every later version is the same holder's with a stamp that does not fall, until the lease as written expires |
| LeaseProtocol.OverlapOnlyAfterDeadline | operator/src/controller/lease.rs:73-114 | in any run, with no timing assumption, two tasks are inside the guarded work only after the deadline of the one whose confirmed write is older |
| LeaseProtocol.Exclusion | operator/src/controller/lease.rs:73-179 | with distinct identities and no task past its deadline, at most one task of the fleet is inside |
| LeaseProtocol.HolderChangesOnlyAfterExpiry | operator/src/controller/lease.rs:208-227 | in any run a version with another holder was stamped after the version it replaces had expired |
| LeaseProtocol.TransitionsCountHolderChanges | operator/src/controller/lease.rs:229-252 | in any run lease_transitions is the number of holder changes, from its starting value and with 32-bit wrap-around |
| LeaseProtocol.ExclusionNeedsDistinctIdentities | operator/src/controller.rs:178-182 | exclusion of in-time tasks over all reachable states holds if and only if no two processes share an identity |
| LeaseProtocol.OverstayingBreaksExclusion | operator/src/controller/lease.rs:157-179 | a reachable state in which a task at its deadline overlaps another one, so the timing assumption is needed |
| LeaseProtocol.RenewalMovesDeadline | operator/src/controller/lease.rs:157-206 | an undisturbed renewal keeps the task inside and moves its deadline to the configured duration after the renewal |
| LeaseProtocol.StopFrees | operator/src/controller/lease.rs:73-114 | a task that stops, wherever it is, leaves its process free to lock again and the stored lease as it was |
| RelaySafety.LeavesOnlyAfterAccepted | plugins/azure_servicebus/src/input.rs:15-55 | in any run a completed copy had, in the completing attempt, a copy accepted at every destination its role, a route or its drain requires |
| RelayRouting.RoutedByTrafficInForce | plugins/azure_servicebus/src/input.rs:15-55 | the destinations a duplicator or splitter served are those of the traffic percentage in force when the completing attempt was routed |
| RelayServed.SplitByChoice | plugins/azure_servicebus/src/input.rs:38-55 | in any run a splitter's completed message of the base queue has, from its completing attempt, a copy at the blue side and none elsewhere if the SDK's choice at the percentage in force at its routing was blue, else one at the green side alone |
| RelayServed.DuplicatedToBoth | plugins/azure_servicebus/src/input.rs:15-36 | a duplicator's has copies at the green and at the blue side and nowhere else |
| RelayServed.CombinedToResult | plugins/azure_servicebus/src/combiner.rs:42-124 | a combiner completes only messages of its two temporary queues, each with a copy at the result queue, or its shadow for a shadow's, and nowhere else |
| RelayServed.DrainedToBase | plugins/azure_servicebus/src/servicebus.rs:381-403 | a duplicator and a splitter complete, besides messages of the base queue, only those of their temporary queues, each with a copy at the base queue, or its shadow, and nowhere else |
| RelayServed.WorkerPass | plugins/azure_servicebus/src/input.rs:190-246 | an undisturbed worker in Active ends with its message completed and new copies at exactly the queues of its role, everything else as it was |
| RelayServed.WorkerGivesBack | plugins/azure_servicebus/src/input.rs:206-227 | one that is not in Active when it looks again ends with the message given back and nothing sent |
| RelayServed.ExpiredIsTakenAgain | plugins/azure_servicebus/src/input.rs:190-246 | a message whose lock has expired is completed by the next undisturbed worker |
| RelayServed.DrainPass | plugins/azure_servicebus/src/servicebus.rs:381-403 | an undisturbed drain ends with its message moved to the base queue, or to the result queue for a combiner, or to that one's shadow |
| RelayServed.DeadLettersAreDrained | plugins/azure_servicebus/src/servicebus.rs:381-403 | a drain moves a dead-lettered or shelved message of a temporary queue as well |
| RelayServed.TrafficIsLastShift | plugins/azure_servicebus/src/config.rs:220-227 | the percentage in force is that of the last shift, at most 100, or the initial one |
| RelayServed.ModeIsLastSet | plugins/azure_servicebus/src/lifecycle.rs:232-245 | the mode is the one set last since the last restart, and Idle if none was |
| RelayServed.TriesCountLocks | plugins/azure_servicebus/src/servicebus.rs:281-319 | the number of an attempt is the number of times that its message was locked |
| RelayServed.StartedInMode | plugins/azure_servicebus/src/input.rs:190-246 | in any run whatever a worker does began with a look at the mode that found Active, and whatever a drain does with one that found Draining |
| RelayServed.FailureEndsDrain | plugins/azure_servicebus/src/servicebus.rs:381-403 | a drain leaves its loop when a request fails, and looks at the mode again before the next message |
| RelaySafety.NothingLost | plugins/azure_servicebus/src/input.rs:190-246 | for every destination a completed message had to reach there is a copy descending from what was sent there that waits or was consumed |
| RelaySafety.DuplicatorReachesBoth | plugins/azure_servicebus/src/input.rs:15-36 | a duplicator's message that left the base queue has living descendants of a copy sent to each side |
| RelaySafety.MessageSurvives | plugins/azure_servicebus/src/combiner.rs:42-124 | every copy ever accepted has a descendant with the same origin that is not completed by the plugin |
| RelaySafety.DuplicatesNeedRepeatedAttempts | plugins/azure_servicebus/src/servicebus.rs:381-403 | two copies from one message at one destination come from different attempts, so it was locked at least twice |
| RelaySafety.FirstAttemptIsExactlyOnce | plugins/azure_servicebus/src/input.rs:206-246 | a message completed in its first attempt has exactly one copy at each destination |
| DrainReports.RunCounter | plugins/azure_servicebus/src/config.rs:229-249 | in any run the in-flight counter is the number of workers between their tracking and the drop of the guard |
| DrainReports.NoForwardUntilActivate | plugins/azure_servicebus/src/input.rs:206-227 | after an in-flight count of zero was read in Draining no worker is about to send into the temporary queues before the next activate |
| DrainReports.CountZeroIffEmpty | plugins/azure_servicebus/src/servicebus.rs:405-447 | the count of a path is zero exactly when nothing on it waits or is locked |
| DrainReports.CountsIff | plugins/azure_servicebus/src/lifecycle.rs:73-110 | a status call counts exactly the role's temporary queues and their dead-letter queues, with their shadows where there are any, each once |
| DrainReports.QuietCallReportsTruly | plugins/azure_servicebus/src/lifecycle.rs:19-110 | a drained report of a call begun while no worker may send means both temporary queues, dead-letter and shadow paths included, are and stay empty until the next activate |
| DrainReports.ReportIff | plugins/azure_servicebus/src/lifecycle.rs:73-110 | in any run a status call, having counted every path since it began, reports drained exactly if all its counts were zero and no worker holds a guard at its end |
| DrainReports.SecondDrainedReportMeansEmpty | plugins/azure_servicebus/src/lifecycle.rs:19-110 | of two drained reports, the first in Draining and the second of a call begun after it, with no activate between, the second means that both temporary queues are and stay empty until the next activate |
| DrainExact.WrongReportIff | plugins/azure_servicebus/src/lifecycle.rs:19-110 | after any run of a duplicator or splitter, with or without shadow queues, a status call that begins next can report drained before any activate with a message in a temporary queue exactly if some worker may send: the plugin is active, or the worker has passed its second look and has a destination left |
| DrainExact.ReportsTooSoon | plugins/azure_servicebus/src/lifecycle.rs:73-110 | the continuation with the wrong report, from any state in which a worker may send |
| DrainExact.OneReportIsNotEnough | plugins/azure_servicebus/src/lifecycle.rs:73-110 | so a single drained report can be wrong for every duplicator and splitter |
| Plugin.Client.ReceivePeekLock | plugins/azure_servicebus/src/servicebus.rs:281-319 | locks one waiting copy, or nothing only if none waits; an error may leave one waiting copy locked |
| Plugin.Client.ForwardMessage | plugins/azure_servicebus/src/servicebus.rs:235-279 | success means one new copy at the path; a failure may or may not have added it |
| Plugin.Client.Complete | plugins/azure_servicebus/src/servicebus.rs:321-340 | success only under a lock still held; the effect may go unreported |
| Plugin.Client.Abandon | plugins/azure_servicebus/src/servicebus.rs:342-361 | gives the lock back or does nothing |
| Plugin.Client.MoveLocked | plugins/azure_servicebus/src/servicebus.rs:388-401 | one attempt of a drain: completed only after the target accepted the message |
| Plugin.Client.MoveAvailable | plugins/azure_servicebus/src/servicebus.rs:381-403 | however it ends nothing has left the source unaccepted; it succeeds exactly if no request failed, and then exactly the waiting messages were moved and counted |
| Plugin.AppState.constructor | plugins/azure_servicebus/src/config.rs:194-210 | starts idle, with nothing in flight and the percentage from the environment |
| Plugin.AppState.ProcessMessage | plugins/azure_servicebus/src/input.rs:15-55 | succeeds exactly if no request failed, and then both sides, the side of the SDK's choice or the result queue, by role, have a copy and no other one was sent to |
| Plugin.AppState.RunOnce | plugins/azure_servicebus/src/input.rs:190-246 | one worker pass: guard dropped on every path, at most one message touched, completed only when delivered everywhere, nothing sent unless the second look finds Active; without a failed request a waiting message is completed to the queues of the role, or given back if the second look does not find Active |
| HttpAdmission.CounterIsExact | plugins/http/src/state.rs:51-69 | in any run the counter is the number of threads between their add and their subtract |
| HttpAdmission.NeverUnderflows | plugins/http/src/state.rs:56-68 | no subtract is enabled at a counter of zero |
| HttpAdmission.UndisturbedRequest | plugins/http/src/state.rs:51-69 | an undisturbed request is admitted in Active and leaves the state as it was; one that finds another mode at its second look leaves without having been admitted |
| HttpAdmission.DrainedMeansNoneAdmitted | plugins/http/src/handlers.rs:624-645 | if the plugin was not active when a reporting call loaded the counter, a drained report means no request is admitted from then until the next activate |
| HttpAdmission.ReportIff | plugins/http/src/handlers.rs:624-645 | in any run a status call reports drained exactly if no request was inside when it loaded the counter and the mode was Draining when it loaded that |
| HttpAdmission.WrongReportIff | plugins/http/src/handlers.rs:624-645 | after any run that leaves no request inside but some thread, a call that loads the counter next can report drained with a request admitted exactly if the plugin is active at that load |
| HttpAdmission.ReportsTooSoon | plugins/http/src/handlers.rs:624-645 | the continuation with the wrong report |
| HttpAdmission.NoReportWhileInside | plugins/http/src/handlers.rs:624-645 | a call that loads the counter while a request is inside does not report drained |
| HttpAdmission.ActiveRequests.TryNew | plugins/http/src/state.rs:52-63 | a guard exists exactly if both looks found Active, and the counter stays the number of existing guards |
| HttpAdmission.ActiveRequests.Drop | plugins/http/src/state.rs:65-69 | dropping an existing guard never underflows, and the counter stays the number of existing guards |
| MemoryStores.MemoryStore.Register | operator/src/state_store/memory.rs:33-60 | a new case is inserted, a pending one merged, a finalised one left alone |
| MemoryStores.MemoryStore.SetVerdict | operator/src/state_store/memory.rs:67-90 | sets status, verdict and message of a pending case, else NotFound and no change |
| MemoryStores.MemoryStore.MarkTimedOut | operator/src/state_store/memory.rs:92-104 | times a pending case out and clears its verdict, else NotFound and no change |
| MemoryStores.MemoryStore.DecrementRetries | operator/src/state_store/memory.rs:106-119 | takes one retry of a pending case that has any; None otherwise; NotFound for a missing case |
| MemoryStores.MemoryStore.CountCases | operator/src/state_store/memory.rs:134-152 | the counting loop returns the sizes of the four sets of selected records by status |
| MemoryStores.TallyCounts | operator/src/state_store/memory.rs:134-152 | what is counted: the cases of the reference, and of the mode if one is asked for, that are passed, failed, timed out and pending |
| MemoryStores.MemoryStore.CleanupBlueGreen | operator/src/state_store/memory.rs:163-168 | removes exactly the cases of the reference and returns their number |
| MemoryStores.MemoryStore.CleanupExpired | operator/src/state_store/memory.rs:170-176 | removes exactly the pending cases past their deadline and returns their number |
| PostgresStores.PostgresStore.Register | operator/src/state_store/postgres.rs:179-230 | the scan of the rows and the insert or merge amount to the upsert on the table, whose keys stay unique |
| PostgresStores.PostgresStore.SetVerdict | operator/src/state_store/postgres.rs:246-271 | the scanning update changes exactly the open row of the key, and affects no row exactly when it answers NotFound |
| PostgresStores.PostgresStore.MarkTimedOut | operator/src/state_store/postgres.rs:273-288 | the same for the time-out |
| PostgresStores.PostgresStore.DecrementRetries | operator/src/state_store/postgres.rs:290-303 | the scanning update takes one retry of the open row of the key that has any, and returns what is left, else None |
| PostgresStores.PostgresStore.CleanupExpired | operator/src/state_store/postgres.rs:371-381 | the scanning delete removes exactly the open rows whose expires_at column is past, and returns their number |
| PostgresStores.PostgresStore.CleanupBlueGreen | operator/src/state_store/postgres.rs:361-369 | the scanning delete removes exactly the rows of the reference, and returns their number |
| StoreAgreement.KeysDistinct | operator/src/state_store/memory.rs:27-29 | for references without U+001F the map's keys identify reference and test id |
| StoreAgreement.KeysCollideIff | operator/src/state_store/memory.rs:27-29 | two references share a key, for some test ids, exactly when one and U+001F begin the other |
| StoreAgreement.TimeoutSurvives | operator/src/state_store/postgres.rs:147-176 | a timeout comes back from its column unchanged exactly when it is a whole number of seconds in 32 bits |
| StoreAgreement.TimesAreCut | operator/src/state_store/postgres.rs:147-176 | otherwise it is cut to whole seconds towards zero and their low 32 bits, and instants down to the microsecond |
| StoreAgreement.RecordSurvives | operator/src/state_store/postgres.rs:147-230 | a record comes back from its row unchanged exactly when its timeout survives and its trigger time is in whole microseconds |
| StoreAgreement.CleanupAgreesIff | operator/src/state_store/postgres.rs:371-381 | the timed clean-up has the same effect on both stores exactly when no open case is past its own deadline but not past its column |
| StoreAgreement.StepAgreesIff | operator/src/state_store/postgres.rs:179-381 | any operation with fitting times and references has the same answer and keeps the agreement exactly when it is neither a decrement of a missing case nor a clean-up past such a case |
| StoreAgreement.StoresStayAgreed | operator/src/state_store/memory.rs:32-176 | the stores agree after any sequence of operations with fitting times and references whose clean-ups pass no lagging case, decrements included |
| StoreAgreement.AnswersAgreeIff | operator/src/state_store/memory.rs:32-176 | in such a sequence the i-th answers are equal exactly unless the i-th operation is then a decrement of a missing case |
| StoreAgreement.SequencesAgree | operator/src/state_store/memory.rs:32-176 | from empty stores, any such sequence without decrements of missing cases is answered alike |
| StoreAgreement.TableIsRoundedMap | operator/src/state_store/postgres.rs:179-230 | on any clock the table answers a sequence as it answers the one with trigger times rounded to microseconds |
| StoreAgreement.RoundedSequencesAgree | operator/src/state_store/postgres.rs:179-381 | so the table, given the clock's trigger times, answers as the map does given the rounded ones |
| StoreAgreement.DecrementAgrees | operator/src/state_store/postgres.rs:290-303 | a retry decrement agrees exactly on existing cases |
| StoreExpiry.CleanupNeverEarly | operator/src/state_store/postgres.rs:371-381 | after any sequence of operations the SQL clean-up deletes only open cases, and none before its own deadline |
| StoreExpiry.RegistrationsMerge | operator/src/state_store/memory.rs:38-50 | registering one pending case any number of times, in any order, leaves in both stores the least trigger time and the greatest timeout, and in the column the greatest deadline |
| StoreExpiry.RegistrationsLagIff | operator/src/state_store/postgres.rs:190-206 | after registrations of one case the clean-ups can disagree exactly when a single deadline is later than the least trigger time plus the greatest timeout |
| StoreExpiry.TimelySequencesAgree | operator/src/state_store/postgres.rs:190-206 | if all registrations of a case carry one trigger time and clean-ups run at whole microseconds, sequences with clean-ups agree as those without |
| CaseAccounting.RunWellKept | operator/src/http_api.rs:144-158 | from API-shaped registrations verdict matches status after every sequence of operations |
| CaseAccounting.RegisteredAgain | operator/src/state_store/memory.rs:33-60 | a pending case registered once more keeps the earlier trigger time and the longer timeout, has what was empty filled in and nothing else changed; a finalised one and all others stay |
| CaseAccounting.FinalizedNeverChanges | operator/src/state_store/memory.rs:67-104 | a finalised case is unchanged after every sequence without a clean-up of its reference |
| CaseAccounting.FinalisedAtMostOnce | operator/src/state_store/memory.rs:67-104 | while its own reference is not cleaned up a case is finalised with success at most once, and not if it already was |
| CaseAccounting.OtherReferencesNeverClean | operator/src/state_store/memory.rs:163-168 | operations that do not clean the case's own reference never clean the case |
| CaseAccounting.CountsAddUp | operator/src/state_store/memory.rs:179-190 | passed, failed, timed out and pending add up to the records of the reference |
| CaseAccounting.CountsSplitByMode | operator/src/state_store/memory.rs:134-152 | every count is the sum of its Data and Custom counts |
| CaseAccounting.FinalizedCountsNeverFall | operator/src/state_store/memory.rs:179-190 | finalised counts of a reference never fall before it is cleaned up |
| CaseAccounting.RetriesAccounted | operator/src/state_store/memory.rs:106-119 | as long as the case itself is not removed, retries remaining are the initial ones minus the successful decrements, never negative |
| Inception.Tracker.PollOne | operator/src/inception.rs:66-121 | whatever others do before and between its requests, one answer leads to atomic operations on its case that the answer allows; undisturbed, the case is as polled |
| Inception.Tracker.PollPending | operator/src/inception.rs:56-124 | with any operations of others in between, the effect is a sequence of atomic operations, the tracker's own only on listed cases and as their answers say; undisturbed, exactly the pending cases are polled |
| Inception.Tracker.CheckTimeouts | operator/src/inception.rs:126-142 | with any operations of others in between, the tracker times out exactly the listed cases that were past their deadline; undisturbed, exactly those change |
| Inception.RetriesBoundPolls | operator/src/inception.rs:91-116 | a custom case that is never answered sensibly fails at exactly the poll after its last retry |
| CosmosStores.StepLinearizes | operator/src/state_store/cosmos.rs:279-321 | each request is its atomic operation at that moment with that answer, or leaves the contents alone |
| CosmosStores.RunLinearizes | operator/src/state_store/cosmos.rs:401-442 | over any stretch of any interleaving the container holds what the atomic operations give in the order of their linearization points |
| CosmosStores.AnswersAreAtomic | operator/src/state_store/cosmos.rs:279-321 | every reply is that of the atomic operation on what the operations before its point have left |
| CosmosStores.UndisturbedUpdate | operator/src/state_store/cosmos.rs:279-321 | an update that nobody disturbs changes the container and answers as the atomic operation does |
| CosmosStores.LostRaceChangesNothing | operator/src/state_store/cosmos.rs:414-442 | a replace over a document changed since its read changes nothing and is a conflict |
| CosmosStores.AtMostOneFinalisation | operator/src/state_store/cosmos.rs:279-308 | in any interleaving, of the finalisations of a document at most one takes effect before it is deleted itself |
| CosmosStores.FinalizedNeverOverwritten | operator/src/state_store/cosmos.rs:279-308 | a finalised document is unchanged until it is deleted itself |
| CosmosStores.RetriesKept | operator/src/state_store/cosmos.rs:310-321 | until a document is deleted itself its retries remaining are the earlier ones minus the accepted decrements, never negative |
| CosmosStores.SecondRegistrationDiffers | operator/src/state_store/cosmos.rs:240-264 | a second registration of a pending case does nothing, and agrees with the map exactly when the merge would change nothing |
| CosmosStores.Container.ReplaceDoc | operator/src/state_store/cosmos.rs:414-442 | accepted exactly under the stored etag; stores the document under a fresh one |
| CosmosStores.Container.Update | operator/src/state_store/cosmos.rs:279-321 | answers from the read where that settles it, else changes the copy and stores it unless another write came between |
| Phases.BelowIsPartialOrder | operator/src/controller/status.rs:80-121 | the guard is a partial order on observed generation and phase |
| Phases.PassesGuardIff | operator/src/controller/status.rs:80-118 | phase by phase: newer generations pass, older do not, and within one an unset phase gives way to all, a phase to itself, and a non-terminal one to those after it from Pending over Observing, Promoting and Draining to the terminal ones |
| Phases.TerminalIsMaximal | operator/src/controller/status.rs:97-104 | within a generation nothing passes the guard over a terminal phase but itself |
| Phases.BlindInvalidKeepsOrderIff | operator/src/controller/status.rs:362-371 | the unguarded patch to Invalid keeps the order exactly over an older generation or one neither completed nor rolled back |
| Phases.ResetKeepsOrderIff | operator/src/controller/status.rs:162-193 | the unguarded reset keeps the order exactly over an older generation, or the same one still pending or without phase |
| PhaseOrder.NeverMovesDown | operator/src/controller/status.rs:12-56 | under any interleaving of read, check and versioned replace the stored pair never moves down |
| PhaseOrder.TerminalStays | operator/src/controller/status.rs:12-56 | a terminal phase is left only for a higher generation |
| PhaseOrder.OneUpdatePerVersion | operator/src/controller/status.rs:45-55 | of the updates that read one version at most one is stored |
| PhaseOrder.UndisturbedStored | operator/src/controller/status.rs:12-114 | an update that nobody disturbs is stored exactly if it passes the guard |
| PhaseOrder.StatusObject.ReplaceStatus | operator/src/controller/status.rs:45-55 | stored exactly if no other write came since the read |
| PhaseOrder.StatusObject.UpdateStatusPhase | operator/src/controller/status.rs:12-56 | stores the phase exactly if the guard passes and nobody else wrote meanwhile; either way the pair moves up |
| Promotion.BestAtLeastActual | operator/src/strategy/progressive.rs:18-25 | the best possible rate is at least the actual one |
| Promotion.BestRateIsTheBest | operator/src/strategy/progressive.rs:18-25 | the best possible rate is the rate when all pending cases pass, and no resolution exceeds it |
| Promotion.CriteriaPromoteIff | operator/src/strategy/hard_switch.rs:11-16 | where the criteria do not say, the minimum is 100 cases and the threshold 98 % |
| Promotion.HardSwitchPromotesIff | operator/src/strategy/hard_switch.rs:29-58 | promotes exactly when the passed, failed and timed-out cases reach the minimum and the passed ones among them the threshold's share |
| Promotion.EarlyRollbackIsFinal | operator/src/strategy/hard_switch.rs:18-37 | after a rollback on the best possible rate every resolution of pending cases still rolls back |
| Promotion.RollbackIsFinalIff | operator/src/strategy/hard_switch.rs:32-56 | a rollback is final for all resolutions exactly when nothing is pending or the best possible rate misses the threshold; otherwise all passing promotes |
| Promotion.PrematureRollback | operator/src/strategy/hard_switch.rs:32-56 | 2 passed, 1 failed, 10 pending at a minimum of 3 and 80%: rolled back although 12 of 13 would promote |
| Promotion.StepLeftIff | operator/src/strategy/progressive.rs:30-74 | a step is left exactly when it has its cases at its threshold, for the very next step or, from the last, for promotion |
| Promotion.EarlyStepRollbackIsFinal | operator/src/strategy/progressive.rs:40-63 | after an early step rollback no resolution advances or promotes; which ones still roll back is exact |
| Promotion.PromotesIff | operator/src/controller/promotion.rs:10-72 | the combined decision is Promote exactly if a mode is configured and every configured one has its requirement met |
| Promotion.RollsBackIff | operator/src/controller/promotion.rs:10-72 | the combined decision is Rollback exactly if some configured mode misses its requirement, and an error exactly for a spec without promotion, modes or needed steps |
| Promotion.AdvancesIff | operator/src/controller/promotion.rs:35-57 | the combined decision advances exactly from a met step to the next with its percent, and only without the custom mode |
| Promotion.ProgressiveWithCustomNeverAdvances | operator/src/controller/promotion.rs:35-57 | with the custom mode no counts advance or promote before the last step |
| RolloutSafety.ActsOnRecordedSpec | operator/src/controller.rs:410-428 | in any run every Observing, Promoting and Draining act is on the spec of the rollout generation; only a forcing update policy may be newer |
| RolloutSafety.ForcesAsideRecordedSpec | operator/src/controller.rs:816-835 | forcing a rollout aside begins its drain at its own generation and with its recorded spec, or with the live one only if the snapshot is missing |
| RolloutSafety.OneRolloutOneSpec | operator/src/controller.rs:872-911 | all acts of one rollout are on the same plan and the same rest of the spec, whatever was edited between |
| RolloutSafety.RolloutGenerationMoves | operator/src/controller/status.rs:131-193 | the rollout generation moves only when unset or from a terminal phase, and then rises |
| RolloutSafety.RestartTakesGenerationRead | operator/src/controller.rs:387-408 | a reset records the generation that its own pass has read and starts over; later edits wait |
| RolloutSafety.DeferredEditTakenUp | operator/src/controller.rs:771-785 | in a terminal phase a pass restarts exactly when the generation is above the rollout's, and starts over at the one it read |
| RolloutSafety.PhasesNeverMoveDown | operator/src/controller/status.rs:12-193 | over whole runs, restarts included, generation and phase never move down |
| RolloutSafety.PromotionEarned | operator/src/controller.rs:497-518 | a promoted rollout has met every configured mode of its recorded plan, and of progressive steps each threshold in order, with one advance fewer than steps |
| RolloutSafety.PromotingNeedsPromotion | operator/src/controller.rs:546-553 | the phase Promoting and the cut-over are reached only by a promoted rollout |
| RolloutSafety.EvidenceObserved | operator/src/controller.rs:459-503 | the counts behind every advance and promotion were observed by a pass since the last reset |
| RolloutEvidence.PromotedFromStore | operator/src/controller.rs:456-518 | beside a store with any operations in between: a rollout is promoted only on counts that the store had at two moments of one pass of this rollout and that meet every configured mode; Custom then had cases, all passed |
| RolloutEvidence.OnlyNewCases | operator/src/controller.rs:387-408 | after a restart every case of the reference in the store was registered since the clean-up that preceded the reset |
| RolloutEvidence.PromotedOnOwnCases | operator/src/controller.rs:387-518 | a restarted rollout is promoted only on counts of cases registered since the clean-up of its own restart |
| RolloutEvidence.AdvancedFromStore | operator/src/controller.rs:456-542 | every advance was decided on Data counts that the store had since the rollout started and that meet the step |
| RolloutSafety.StepsRiseByOne | operator/src/controller.rs:525-542 | the current step rises by exactly one, stays below the number of steps, follows the recorded plan and its percents, and is taken back only by a restart |
| RolloutWedges.StuckIff | operator/src/controller.rs:410-428 | between passes, no continuation ever acts again exactly if the rollout generation is recorded and outdated, the snapshot is missing, and the rollout is not yet observed or is draining |
| RolloutWedges.WedgedForever | operator/src/controller.rs:810-835 | from a missing snapshot with an outdated rollout generation no passes or edits, forcing or not, ever act, finish or restart |
| RolloutWedges.EditAfterRestartWedges | operator/src/controller.rs:387-408 | a run without aborts or lost writes that ends wedged |
| RolloutWedges.AbortBeforeSnapshotWedges | operator/src/controller.rs:436-438 | a first rollout whose pass was aborted before the snapshot, then edited, is stuck with its phase unset |
| RolloutFreeze.ActOnRecordedIff | operator/src/controller.rs:410-428 | in any run, lost writes included, an act is on the recorded spec exactly if a generation is recorded and the pass has read just that one or the snapshot is of its spec, up to the update policy of a forcing edit; without a generation the act is on the spec read |
| RolloutFreeze.NextPassActsOn | operator/src/controller.rs:410-428 | in an active phase the pass after an edit that does not force acts on that edit if no generation is recorded, and on the snapshot otherwise |
| RolloutFreeze.FrozenIff | operator/src/controller/status.rs:131-160 | after any run, lost writes included, no continuation of passes, edits, aborts and restarts acts on another spec than the recorded one exactly if the rollout is over, or its generation is recorded and the snapshot, if any, is of it; also if nothing at all is recorded, provided the continuation loses no such write itself |
| RolloutFreeze.LostGenerationUnfreezes | operator/src/controller/status.rs:131-160 | a run in which the rollout generation was not stored and an observing pass acts on a later edit |
| RolloutFreeze.LateGenerationFreezesAnother | operator/src/controller.rs:436-438 | a run in which the second generation is recorded and an observing pass acts on the first one's spec |
| Controller.PassKeeps | operator/src/controller.rs:352-575 | an undisturbed pass keeps the invariant of the rollout, moves generation and phase up or not at all, and promotes only what was earned |
| Controller.PassLeaves | operator/src/controller.rs:352-575 | what an undisturbed pass stores, phase by phase: a restart, the forced drain, the observation or the initial green, the decided promotion, rollback or step, the cut-over's drain, the drained outcome, each on the live spec or the frozen one |
| Controller.Cluster.LoadSnapshot | operator/src/controller.rs:872-911 | fails exactly without a snapshot; else the snapshot's spec, under the live update policy if that forces |
| Controller.Cluster.ReconcileLocked | operator/src/controller.rs:352-575 | the stored object after a whole pass of a rollout in order is, phase by phase, the one just named: a decided rollback is Draining, a promotion Promoting with its evidence, an advance its step and percent, and otherwise nothing changes; the rollout stays in order and any promotion was earned on the recorded plan |
| EnvPatch.UpsertEnv | operator/src/controller/deployments.rs:221-232 | the first entry of the name is updated in place, else one is appended |
| EnvPatch.UpsertedLookup | operator/src/controller/deployments.rs:221-232 | after an upsert the name has the value, keeping a source reference, and every other lookup is unchanged |
| EnvPatch.PatchContainers | operator/src/controller/deployments.rs:153-163 | every selected container sees the new values and nothing else changes in any lookup |
| EnvPatch.Group | operator/src/controller/deployments.rs:46-111 | the groups hold for every key the last value assigned, and the touched deployments are those assigned to |
| EnvPatch.ApplyToSpec | operator/src/controller/resources.rs:137-164 | applied one by one, every container sees for each name the last assignment that applies to it |
| EnvPatch.DeploymentApi.PatchTargeted | operator/src/controller/deployments.rs:132-167 | patches one deployment, and fails exactly on a missing one that is not ignored |
| EnvPatch.DeploymentApi.ApplyAssignments | operator/src/controller/deployments.rs:30-130 | fails exactly on a missing touched deployment, named in the error, having patched exactly the groups before it; else every container sees the grouped values |
| EnvPatch.AssignsIff | operator/src/controller/deployments.rs:46-111 | an assignment reaches a deployment exactly if it is of the environment kind and its target, green, blue or an existing test deployment, stands for it |
| EnvPatch.AgreeIff | operator/src/controller/deployments.rs:46-167 | grouping and one-by-one application differ on a variable exactly when an assignment naming the container is followed by a different one that names none |
| EnvPatch.GroupingRefinesOneByOne | operator/src/controller/deployments.rs:46-167 | for a batch that never assigns a variable of a target both ways every container's lookups are the same |
| EnvPatch.TargetsApartIff | operator/src/controller/deployments.rs:54-110 | what is assigned to a target's deployment is what is assigned to the target, for all batches, exactly if no two targets stand for one deployment |
| EnvPatch.PatchRefinesRendering | operator/src/controller/resources.rs:137-164 | for an unmixed batch over different deployments, the result of the grouped patch and that of the one-by-one rendering show every container the same |
| JsonMerge.MergeJsonValue | operator/src/controller/resources.rs:674-689 | the in-place loop over the members, in any order, computes the merge |
| JsonMerge.MergesByStandardIff | operator/src/controller/resources.rs:674-689 | equals MergePatch of section 2 of RFC 7396 exactly if no object of the patch with a null member meets something that is no object |
| JsonMerge.NoNullsFit | operator/src/controller/resources.rs:674-689 | a patch without null members always meets that condition |
| JsonMerge.IdempotentIff | operator/src/controller/resources.rs:674-689 | merging twice equals merging once under exactly the same condition |
| JsonMerge.UnmentionedStays | operator/src/controller/resources.rs:674-689 | every path that the patch does not mention keeps its value |
| JsonMerge.LeafIsSet | operator/src/controller/resources.rs:674-689 | every value the patch sets is there afterwards |
| QueueNames.RewrittenIs | plugins/azure_servicebus/src/manager.rs:433-544 | every place below an object holds its derived name and nothing else has changed |
| QueueNames.RewriteIsIdempotent | plugins/azure_servicebus/src/manager.rs:433-544 | rewriting twice equals rewriting once, whatever the derived names are |
| QueueNames.EffectiveDuplicator | plugins/azure_servicebus/src/manager.rs:433-521 | a duplicator's effective configuration has the names derived for its green-input and blue-input slots and its identifier and, of the rest, what was written |
| QueueNames.EffectiveSplitter | plugins/azure_servicebus/src/manager.rs:433-521 | the same for a splitter |
| QueueNames.EffectiveCombiner | plugins/azure_servicebus/src/manager.rs:433-521 | the same for a combiner with its green-output and blue-output slots |
| QueueGc.RewriteQueueTempNames | plugins/azure_servicebus/src/manager.rs:433-521 | setting the places one after the other computes the rewriting |
| QueueGc.ActiveQueueNames | plugins/azure_servicebus/src/manager.rs:402-424 | the loop returns the temporary queues and temporary shadows of all listed inceptions |
| QueueGc.ServiceBus.Prepare | plugins/azure_servicebus/src/manager.rs:200-296 | adds exactly the temporary queues, their shadows and the base queues' shadows |
| QueueGc.ServiceBus.CleanUp | plugins/azure_servicebus/src/manager.rs:280-292 | removes exactly the temporary queues and their shadows |
| QueueGc.ServiceBus.GarbageCollect | plugins/azure_servicebus/src/manager.rs:298-318 | removes exactly the existing queues with the prefix that no listed inception manages |
| QueueGc.CollectorKeepsManaged | plugins/azure_servicebus/src/manager.rs:298-318 | every temporary queue and shadow of an inception listed with its original or its effective configuration is in the active set and survives |
| QueueGc.BaseShadowSurvivesIff | plugins/azure_servicebus/src/manager.rs:234-318 | for every naming, listing and set of queues, the base queue's shadow of a listed inception survives exactly if it lacks the prefix or a listed inception manages a queue of that name |
| QueueGc.DuplicatorShadowCollected | plugins/azure_servicebus/src/manager.rs:234-318 | a listed duplicator, read from its rewritten configuration, loses that shadow whenever its name has the prefix and is none of the duplicator's own queues |
| QueueGc.BaseShadowCollected | plugins/azure_servicebus/src/manager.rs:234-318 | there is such a duplicator, of the base queue fluidbg-orders |
| QueueGc.CleanupUndoesPrepare | plugins/azure_servicebus/src/manager.rs:200-296 | what Prepare and then CleanUp make of a bus is, beyond what was there, only the base queues' shadows that are not managed |
| QueueGc.PreparedIff | plugins/azure_servicebus/src/manager.rs:200-296 | queue by queue: the preparation adds exactly the green and blue queues of the active roles, their shadows and the shadows of the base queues; the cleanup removes exactly the former two; neither changes anything where it may not |
| QueueGc.BuildPrepareAssignments | plugins/azure_servicebus/src/assignments.rs:5-59 | the pushes give, role by role, the assignments whose restoring the next rows state |
| QueueGc.BuildCleanupAssignments | plugins/azure_servicebus/src/assignments.rs:61-115 | the same for the cleanup |
| QueueGc.RoleRestoredIff | plugins/azure_servicebus/src/assignments.rs:61-139 | a variable the preparation points at a temporary queue is set back exactly if the role names its base queue, and then to that queue |
| QueueGc.AssignedIff | plugins/azure_servicebus/src/assignments.rs:5-115 | the preparation points exactly the green variables of the active roles at their green queues and the blue ones at the blue queues, the cleanup both at the base queues |
| QueueGc.CleanupRestoresAll | plugins/azure_servicebus/src/assignments.rs:61-115 | with every active role naming its base queue the cleanup sets every variable of every target that the preparation set |
| ChunkedBody.DecodeChunkedBody | e2e/src/kube.rs:1312-1332 | the loop, each pass shortening its input, computes the decoding |
| ChunkedBody.DecodesIff | e2e/src/kube.rs:1312-1332 | decodes to some data exactly if the body is a list of accepted chunks with that data, an accepted last header and any further bytes |
| ChunkedBody.SizeIff | e2e/src/kube.rs:1312-1332 | a size is exactly a hexadecimal number below 2^64, with or without a plus sign |
| ChunkedBody.LineEndIff | e2e/src/kube.rs:1312-1332 | the header ends at the first carriage return that a line feed follows |
| ChunkedUtf8.Utf8Iff | e2e/src/kube.rs:1312-1332 | the header passes for text exactly if it encodes Unicode scalar values by section 3 of RFC 3629 |
| ChunkedBody.StandardDecodesIff | e2e/src/kube.rs:1312-1332 | a list of chunks of section 7.1 of RFC 9112, with leading zeros, extensions and a trailer, decodes to its data exactly if every extension is UTF-8 without white space before its semicolon; else it is an error |
| ChunkedBody.RoundTrip | e2e/src/kube.rs:1312-1332 | plainly encoded non-empty chunks, with upper-case or lower-case digits, come back as their concatenation |

## Left out

- Kubernetes, HTTP, SQL and Cosmos transports, TLS, tokens, signing, environment parsing and logging: I/O.
- CRD types, resource rendering, role validation, the evaluator, hashing, name truncation, end-to-end scenarios and the example applications: data shapes or easy members.
- The RabbitMQ and NATS plugins and most of the SDK are not part of this model; name derivation, routing by body and the reading of a configuration are parameters.
- `controller/phases.rs` is not part of this model: a Draining pass may stay, complete or roll back at any time.
- Deletion of objects, publishing of errors from a cached object, and failed status writes other than that of the rollout generation are not steps of `Rollout`; a guarded phase write that is dropped is an abort there.
- In `Rollout` one pass runs at a time, as the lease gives it; `PhaseOrder` has the concurrent writers.
- The lease has one object per name that is never deleted; that renewals come in time is an assumption of `Exclusion`, and `OverlapOnlyAfterDeadline` states what holds without it.
- The orphan cleanup's lease runs under no local lock but one after the other; it is the same protocol.
- Weak memory orders: the Service Bus plugin's mode uses relaxed atomics, taken here as sequentially consistent.
- Message expiry by time to live, deletion of queues that hold messages, the consumer role, missing temporary queue names and observer notifications of the relay: there a message may go by design.
- Drains of the relay are independent actors over any of their sources, which allows every order of the drain loops and more.
- Dead-lettering and shadow delivery only move a copy forward, from active to dead-letter or from a queue to its shadow.
- A registration between the clean-up of a restart and its reset counts for the new rollout, whichever inception it came from: cases do not name their rollout. Before a first rollout nothing is cleaned up.
- Reads of the Cosmos store are taken to be current: a stale read under a weaker consistency level is not a step.
- Strings with U+0000, which a Postgres text column refuses and the map keeps: the agreement of the stores is about strings without it.
- `latest_failure_message`: the map takes whichever record comes last, so the stores do not agree on it.
- A column keeps an instant rounded down to the microsecond, and NOW() is read so: the database driver is not part of this model, and for instants before 2000 it may round up.
- A send, complete or abandon of the relay is over when its client has seen its outcome: a request that reaches the bus after its client gave up is not a step there.
- Queries of the Cosmos store (counts, lists, references) and the pages of its clean-up; a clean-up is single deletes.
- Failed requests and the order of requests in queue creation and cleanup: the model has their sets, and requests succeed.
- ChunkedBody.DecodeChunkedBody: a size at which adding two overflows is an error value, where the program panics or, for an empty rest, reports a short body.
- JsonMerge.MergeJsonValue: builds the merged value instead of changing it in place; numbers are reals.
- QueueNames.RewriteIsIdempotent: set_nested_string is a function on values, without its descending reference.
- EnvPatch.DeploymentApi.ApplyAssignments: groups and their entries are taken in any order with the group without container name first, of which the order of the keys is one; which deployments come before a missing one in the order of the keys is not stated; a deployment without pod template is not modelled.
