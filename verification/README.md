# The security guard's hard state, modelled and proved

The security guard collects security events, asks clients to authorise others, and stores what it collects. This project
models its stateful components in Dafny and proves what they keep over every run or every interleaving.

* **Authorisation requests.** `RoutingContext` is the context of one request (two counters, one-shot promises, the
  strict policy) with the source's methods. `StrictMerge` and `StrictMergeLaws` prove that every order of answers and
  timeout refines one pure definition of the merge. `SeqnumIndex` is the sharded routing index, `AuthCoordinator` runs
  all requests concurrently, one action per critical section, and `AuthGuarantee` carries the merge through to what a
  provider is told. `AuthSchedule` says the same of the schedule alone, `AuthCompletion` that no request is ever stuck. `SessionRegistry` and `ActiveRequests` are the quotas, the latter at the level of single atomic
  operations.
* **Subscriptions.** `SubscribeManager` has the critical sections of the ledger as methods; `SubscribeProtocol` and
  `SubscribeAgreement` interleave them under the two locks; `SubscribeCalls` says what each call achieves alone and that all
  can end. `DataCollection` is the counted collector table with its
  rollback and `CollectorLedger` its bookkeeping over whole runs; `SubscriberTable` sits on top of it, and
  `SubscriberAgreement` shows when both agree. `BatchQuery` is the grouped query. `EventSession` and `EventClient` are a
  client's session, its mirror and its recovery; `EventOutages` follows a client over whole runs with outages, and
  `FilterProtocol` interleaves the calls that set and drop filters.
* **The event store.** `SqlText`, `SqlConditions` and `SqlMeaning` build clause text and bindings from condition maps and
  read them back independently; `SqlExactness` says what is read where a key is built badly, `SqlLiterals` spells the
  single conditions out. `EventTable` evicts and counts through that text, `EventStore` inserts batches under a quota.
* **Two small concurrent pieces.** `EventBuffers` (conservation of events, the task counter), with `EventDiscards` for a
  lossy schedule, `EventCompletion` for the way to the end and `EventQueue` for the order of sequential runs, and
  `CallbackDrain`.

`Text` renders numbers and keys; `Common` holds shared names, an optional value and facts about sequences and sets.

How the models are built: a class has the fields the source updates in place, and each method is tied to a function of the
old state; concurrent components are state machines whose schedules are arbitrary sequences of actions (an action that is
not enabled is skipped), so a statement about `After(acts)` is about every interleaving. Outside calls are parameters:
codes, flags or functions about which nothing is assumed beyond what a lemma says.

Where the code does not do what its comments or its callers expect, the code is kept and the exact condition is proved:

* Repeated answers of one client count twice, so a request with at least two clients can end in ALLOW although a client
  was never heard (`StrictMergeLaws.PrematureAllowNeedsASecondClient`).
* The rollback of a failed insert can erase what another insert of the same event has booked
  (`SubscribeProtocol.NeverLeaksExactly`), and the re-insertion after a failed stop can leave a session subscribed to a
  collector that does not run (`SubscribeAgreement.ReinsertionCanStrand`).
* A failed subscription keeps counts, so a collector can outlive its subscribers
  (`CollectorLedger.LeakedCollectorNeverStops`); counts wrap at 2^32 (`CollectorLedger.CountWraps`). That a collector is
  loaded exactly while somebody subscribes holds exactly in the runs of `CollectorLedger.RunCoincidesExactly`: no call has
  to stop a collector with a leaked count or of a library that no longer hands it out.
* A filter can be stored more than once, exactly if additions of it overlap (`FilterProtocol.CopiesExactly`).
* A batch query drops rulers whose library does not load (`BatchQuery.NothingIsDroppedIffLibrariesLoad`).
* The cap of 100 subscriptions per app is never reached, an object with two subscribers of one event loses only one, and
  two apps on one event leave its collector running (`SubscriberTable`, `SubscriberAgreement`). The results on two apps
  concern tables that the service does not build: it always passes one app name
  (services/security_collector/src/security_collector_manager_service.cpp:135).
* `_IN` inside a key makes a query select nothing, unless an item of another key happens to bear its name
  (`SqlExactness.UnboundSelectsNothing`, `SqlExactness.KeepsMeaningExactly`).
* Events with a negative id have no quota (`EventStore.StepLaws`), and a stored event of a batch hides the NOT_FOUND of an
  unknown one before it (`EventStore.UnknownIsHiddenExactly`, `EventStore.HiddenNotFound`).
* An unsubscription during the recovery is undone (`EventOutages.UnsubscriptionDuringRecoveryIsLost`).
* A task that ends before it is counted makes the counter wrap and later batches be discarded
  (`EventBuffers.DiscardedExactly`, `EventDiscards.DiscardedWithNothingPending`), and the periodic flush uploads buffered
  events before queued ones (`EventQueue.FlushKeepsOrderExactly`).

## Model

| member | source | states |
|---|---|---|
| RoutingContexts.RoutingContext.RegisterNormalClient | services/data_collect/sa/auth_event/auth_coordinator.cpp:258-274 | registering a client adds its default, a promise and one to each counter that applies, exactly as the state function says, and changes nothing else |
| RoutingContexts.RoutingContext.SatisfyClientPromise | services/data_collect/sa/auth_event/auth_coordinator.cpp:382-388 | a client's promise is set if it is still open and never a second time |
| RoutingContexts.RoutingContext.SatisfyResultPromise | services/data_collect/sa/auth_event/auth_coordinator.cpp:413-422 | the result promise is set with the merged strategy on the first call only |
| RoutingContexts.RoutingContext.DecrementCounters | services/data_collect/sa/auth_event/auth_coordinator.cpp:562-575 | both counters stop at zero and the deny counter moves only for clients whose default is DENY |
| RoutingContexts.RoutingContext.EvaluateStrictPolicy | services/data_collect/sa/auth_event/auth_coordinator.cpp:578-601 | a DENY sets the merged strategy and completes, whatever was merged before; any other answer completes with ALLOW exactly when both counters are zero; the guard against completed requests is in RecordClientResult |
| RoutingContexts.RoutingContext.RecordClientResult | services/data_collect/sa/auth_event/auth_coordinator.cpp:631-646 | an answer to a completed request changes nothing; before that it is recorded, counted and merged |
| RoutingContexts.RoutingContext.HandleTimeoutClient | services/data_collect/sa/auth_event/auth_coordinator.cpp:368-389 | a silent client is recorded as DENY or TIMEOUT by its default and woken |
| RoutingContexts.RoutingContext.HandleTimeout | services/data_collect/sa/auth_event/auth_coordinator.cpp:343-364 | the timeout loop has the effect of one order-free state function, whatever order the clients are visited in |
| RoutingContexts.WrittenOffAllIsExpired | services/data_collect/sa/auth_event/auth_coordinator.cpp:348-357 | writing off the clients one after the other in any order gives the same context |
| StrictMerge.EveryRunIsSound | services/data_collect/sa/auth_event/auth_coordinator.cpp:343-389 | over every run of registrations, answers (repeated and late ones included) and timeouts: completed if and only if the result promise is set, each promise set at most once, merged is DENY exactly when some result is DENY, and a DENY completes |
| StrictMerge.OneShotPromises | services/data_collect/sa/auth_event/auth_coordinator.cpp:382-422 | over every run the result promise and each client's promise are set at most once |
| StrictMerge.AnswersAfterCompletionChangeNothing | services/data_collect/sa/auth_event/auth_coordinator.cpp:631-646 | once completed, no further answers change any part of the context |
| StrictMerge.DenyIsFinal | services/data_collect/sa/auth_event/auth_coordinator.cpp:578-601 | a DENY recorded for a client is never overwritten and fixes the merged strategy |
| StrictMerge.DispatchRegistersEveryClient | services/data_collect/sa/auth_event/auth_coordinator.cpp:311-338 | registering a list of distinct clients yields the context with exactly these defaults and exact counters |
| StrictMerge.StrictMergeRefined | services/data_collect/sa/auth_event/auth_coordinator.cpp:562-646 | with distinct clients answering at most once, every order of answers and timeout gives exactly the results and the merged strategy of a pure definition over the history; it is completed exactly when that definition is decided, and until then the counters are the unanswered clients and the unanswered clients with default DENY |
| StrictMergeLaws.AllowMeansAllAgreed | services/data_collect/sa/auth_event/auth_coordinator.cpp:578-601 | a final ALLOW means every client has a result, each ALLOW or a TIMEOUT of a client whose default is not DENY |
| StrictMergeLaws.MergeIgnoresTheOrderOfAnswers | services/data_collect/sa/auth_event/auth_coordinator.cpp:578-601 | when everyone answers in time the merged strategy is DENY exactly if someone answered DENY, in any order |
| StrictMergeLaws.ResultsExactly | services/data_collect/sa/auth_event/auth_coordinator.cpp:343-389 | what each client is recorded as: TIMEOUT exactly if the time is up, no answer of it counts and its default is not DENY; ALLOW exactly if it said so; DENY exactly if it said so or, once the time is up, by its default |
| StrictMergeLaws.MergedDenyExactly | services/data_collect/sa/auth_event/auth_coordinator.cpp:562-601 | the merged strategy is DENY exactly if a client denied before the timeout, or the time is up and a client not heard before it defaults to DENY |
| StrictMergeLaws.RepeatsCount | services/data_collect/sa/auth_event/auth_coordinator.cpp:562-575 | what repeated answers of one client do to the counters, for any number of repeats |
| StrictMergeLaws.PrematureAllowNeedsASecondClient | services/data_collect/sa/auth_event/auth_coordinator.cpp:562-601 | answers by clients that repeat themselves can complete a request with ALLOW while some client was never heard, and they can exactly if the request has at least two clients |
| Text.SeqnumKeyInjective | services/data_collect/sa/auth_event/auth_coordinator.cpp:43-46 | no two pairs of client id and sequence number share a key, whatever characters the client id holds |
| Text.ParseIntToString | services/data_collect/sa/auth_event/auth_coordinator.cpp:43-46 | decimal rendering loses nothing: reading a rendered number gives it back |
| SeqnumIndexes.SeqnumIndex.Register | services/data_collect/sa/auth_event/auth_coordinator.cpp:263-271 | registering in its shard is one update of the abstract map, for any hash function |
| SeqnumIndexes.SeqnumIndex.FindRoutingContext | services/data_collect/sa/auth_event/auth_coordinator.cpp:606-627 | looking into one shard finds exactly what the abstract map holds |
| SeqnumIndexes.SeqnumIndex.EraseAll | services/data_collect/sa/auth_event/auth_coordinator.cpp:445-451 | the cleanup loop removes exactly the keys of the issued pairs from the abstract map |
| SeqnumIndexes.CleanupIsExact | services/data_collect/sa/auth_event/auth_coordinator.cpp:445-451 | a pair survives a cleanup exactly if it is not among the issued pairs |
| AuthCoordinator.EveryScheduleIsSound | services/data_collect/sa/auth_event/auth_coordinator.cpp:472-522 | in every interleaving of all requests, notifications of degraded clients, answers and timeouts each context is the run of its own events, each index entry a live pair of its own request, and each answer in flight belongs to the request that issued its pair |
| AuthCoordinator.AnswersReachOnlyTheIssuer | services/data_collect/sa/auth_event/auth_coordinator.cpp:668-691 | an answer (client, seqnum) is routed to the one request that issued the pair, exactly while the pair is live, and to no other |
| AuthCoordinator.CleanupRemovesExactlyOwnEntries | services/data_collect/sa/auth_event/auth_coordinator.cpp:426-453 | a request that has cleaned up has no entry left, and every live pair of every other request is still routed to it |
| AuthGuarantee.PoliteSchedulesAreWellServed | services/data_collect/sa/auth_event/auth_coordinator.cpp:311-338 | if every answer that is routed is the first one to an event that was pushed, every request's history is a dispatch followed by at most one answer per client; answers that are not routed, late repeats and those of degraded clients, may come at any time |
| AuthGuarantee.ReportIsTheStrictMerge | services/data_collect/sa/auth_event/auth_coordinator.cpp:472-522 | what a provider is told is the strict merge of its own request's answers and timeout, over every such schedule, and ALLOW for a request without clients or of a provider that has become invalid |
| AuthGuarantee.ReportsAreStable | services/data_collect/sa/auth_event/auth_coordinator.cpp:694-704 | the unlocked read of the context is safe: a report never changes and keeps agreeing with the context in every continuation |
| AuthSchedules.FlightsAreUnderway | services/data_collect/sa/auth_event/auth_coordinator.cpp:668-691 | in every schedule an answer in flight is one that a thread has brought to a live pair of that request, with the strategy its client gave |
| AuthSchedules.AnswersAreDelivered | services/data_collect/sa/auth_event/auth_coordinator.cpp:668-691 | in every schedule a request has on record that a client allowed, or denied, exactly if a thread brought that answer to a live pair of the request and then recorded it |
| AuthSchedules.InTimeIsDeliveredInTime | services/data_collect/sa/auth_event/auth_coordinator.cpp:668-691 | and the answers recorded before its timeout are exactly those delivered before its time was up |
| AuthSchedules.ReportedDenyExactly | services/data_collect/sa/auth_event/auth_coordinator.cpp:472-522 | over every polite schedule a provider is told DENY exactly if a client denied before the time was up, or the time was up and a client that was sent the event and not heard until then defaults to DENY; otherwise ALLOW |
| AuthCompletion.EveryRequestCanEnd | services/data_collect/sa/auth_event/auth_coordinator.cpp:426-453 | from every reachable state the task of a request can go on to its report, with none of its pairs left in the index |
| AuthCompletion.CompletedMayWake | services/data_collect/sa/auth_event/auth_coordinator.cpp:413-453 | a request completed by its clients may go on to its report without its time being up |
| AuthCompletion.DispatchTells | services/data_collect/sa/auth_event/auth_coordinator.cpp:258-274 | a dispatch reaches any client not sent to yet, with its default and the next number of its session |
| SessionRegistries.Registry.CheckQuotaLocked | services/data_collect/sa/auth_event/auth_event_subscribe_manager.cpp:77-94 | the counting loop answers by the size of the set and the number of sessions of the process |
| SessionRegistries.Registry.Create | services/data_collect/sa/auth_event/auth_event_subscribe_manager.cpp:112-153 | a session is admitted exactly on the verdict of quota and callback checks |
| SessionRegistries.Registry.Remove | services/data_collect/sa/auth_event/auth_event_subscribe_manager.cpp:103-110 | removal takes out exactly the one session object |
| SessionRegistries.AdmittedExactlyWhenQuotaHolds | services/data_collect/sa/auth_event/auth_coordinator.cpp:95-157 | the checks refuse a session exactly when admitting it would break the global limit or the process limit or share a callback |
| SessionRegistries.QuotaHoldsInEveryRun | services/data_collect/sa/auth_event/auth_coordinator.cpp:95-219 | over every run of create, rollback, destroy and death the limits hold and no two members share a callback |
| SessionRegistries.ConfiguredLimitsHold | services/data_collect/sa/auth_event/auth_event_subscribe_manager.cpp:77-94 | with the configured limits: never more than 16 providers, one for each process, and 16 client sessions, two for each process |
| SessionRegistries.MembersExactly | services/data_collect/sa/auth_event/auth_coordinator.cpp:95-219 | over every run the members are exactly the sessions whose admission kept the quota and that were not removed since |
| SessionRegistries.RefusalsTell | services/data_collect/sa/auth_event/auth_event_subscribe_manager.cpp:77-153 | which limit a refusal names: the global one first, then that of the process, then the shared callback |
| ActiveRequests.CountIsExactInEveryInterleaving | services/data_collect/sa/include/auth_event/auth_provider_session_service.h:53-71 | at the level of the atomic operations the active count is the number of accepted, unfinished requests and calls between increment and lookup, and never above the cap |
| ActiveRequests.ReleasesNeverUnderflow | services/data_collect/sa/auth_event/auth_coordinator.cpp:456-559 | every release finds a positive counter, and neither increment nor decrement wraps |
| ActiveRequests.AtRestNothingIsCounted | services/data_collect/sa/auth_event/auth_coordinator.cpp:456-467 | with no call under way the counter is zero |
| ActiveRequests.CallAlone | services/data_collect/sa/auth_event/auth_coordinator.cpp:524-559 | a call that nobody disturbs: below the cap and of a listed provider it runs and is counted, of an unlisted one it leaves everything as it was, at the cap it is refused |
| ActiveRequests.FinishAlone | services/data_collect/sa/auth_event/auth_coordinator.cpp:456-467 | the end of a request gives its place back |
| ActiveRequests.RunningWasListed | services/data_collect/sa/auth_event/auth_coordinator.cpp:537-552 | in every interleaving a request runs exactly from a lookup that found its provider listed until it finishes |
| SubscribeManager.AcquireDataSubscribeManager.BookInsert | services/data_collect/sa/acquire_data_subscribe_manager.cpp:177-203 | the first locked section: refused, already booked or newly booked, with the exact new sessions |
| SubscribeManager.AcquireDataSubscribeManager.RollbackInsert | services/data_collect/sa/acquire_data_subscribe_manager.cpp:208-219 | the rollback takes the event out again and a session only if this call created it and it is empty |
| SubscribeManager.AcquireDataSubscribeManager.BookRemove | services/data_collect/sa/acquire_data_subscribe_manager.cpp:435-446 | the first locked section of the removal |
| SubscribeManager.AcquireDataSubscribeManager.Reinsert | services/data_collect/sa/acquire_data_subscribe_manager.cpp:449-456 | after a failed stop the event is put back if the session still exists |
| SubscribeManager.AcquireDataSubscribeManager.Tidy | services/data_collect/sa/acquire_data_subscribe_manager.cpp:458-464 | an emptied session is dropped only on request |
| SubscribeManager.AcquireDataSubscribeManager.TakeSession | services/data_collect/sa/acquire_data_subscribe_manager.cpp:1206-1221 | a destroyed or died client's session goes as a whole and its events are handed over |
| SubscribeManager.AcquireDataSubscribeManager.CreateClient | services/data_collect/sa/acquire_data_subscribe_manager.cpp:1194-1203 | a client without a session gets an empty one, a second creation is refused and changes nothing |
| SubscribeManager.AcquireDataSubscribeManager.IsAnySessionSubscribes | services/data_collect/sa/acquire_data_subscribe_manager.cpp:376-385 | the loop answers whether any session has the event |
| SubscribeManager.AcquireDataSubscribeManager.SubscribeSc | services/data_collect/sa/acquire_data_subscribe_manager.cpp:308-326 | a running collector is not started again, a failed start leaves no mark |
| SubscribeManager.AcquireDataSubscribeManager.UnSubscribeSc | services/data_collect/sa/acquire_data_subscribe_manager.cpp:328-374 | stopping succeeds exactly for a running collector that stops, and unmarks it |
| SubscribeProtocol.NoCollectorLeaks | services/data_collect/sa/acquire_data_subscribe_manager.cpp:403-430 | every interleaving of create, insert, remove, death and destroy: a startable event that runs or is being started without a subscriber has a removal pending that will look at it; an event that never starts never runs |
| SubscribeProtocol.NeverLeaksExactly | services/data_collect/sa/acquire_data_subscribe_manager.cpp:134-222 | that invariant holds over all runs exactly for the events the framework starts: for the others the rollback of one insert can erase what another has booked |
| SubscribeProtocol.AtRestRunningMeansSubscribed | services/data_collect/sa/acquire_data_subscribe_manager.cpp:403-504 | when nothing is in flight, a running collector has a subscriber |
| SubscribeCalls.InsertAlone | services/data_collect/sa/acquire_data_subscribe_manager.cpp:177-222 | a subscription that runs alone: refused or done already it changes nothing; else the event is booked and its collector runs, or, if that does not start, everything is as before |
| SubscribeCalls.RemoveAlone | services/data_collect/sa/acquire_data_subscribe_manager.cpp:432-472 | an unsubscription that runs alone: the event leaves the session, an emptied one goes if asked, the collector stops exactly if nobody else subscribes; if it does not run the subscription stays |
| SubscribeCalls.CreateAlone | services/data_collect/sa/acquire_data_subscribe_manager.cpp:1194-1203 | a creation adds an empty session or nothing |
| SubscribeCalls.TakeTells | services/data_collect/sa/acquire_data_subscribe_manager.cpp:1206-1225 | a session that dies or is destroyed is gone at once, whatever else is under way, and its caller has exactly its events to look at |
| SubscribeCalls.TakeAlone | services/data_collect/sa/acquire_data_subscribe_manager.cpp:480-504 | when the drain of a dead client's session has ended, in any order of its events, its collectors that nobody else needs are off and all others run as before |
| SubscribeCalls.EveryCallCanEnd | services/data_collect/sa/acquire_data_subscribe_manager.cpp:403-430 | from every reachable state the callers under way can all be brought to their ends: the lock is never lost |
| SubscribeAgreement.AgreementBreaksOnlyByStranding | services/data_collect/sa/acquire_data_subscribe_manager.cpp:432-472 | a step keeps 'subscribed and not running implies a pending start' exactly if it is not the re-insertion of an event nobody is going to start |
| SubscribeAgreement.AgreementInEveryRun | services/data_collect/sa/acquire_data_subscribe_manager.cpp:403-457 | over every interleaving without such a step the agreement holds for every startable event |
| SubscribeAgreement.AtRestRunningIffSubscribed | services/data_collect/sa/acquire_data_subscribe_manager.cpp:403-457 | at rest a collector runs exactly when some session subscribes to it, in such runs |
| SubscribeAgreement.ReinsertionCanStrand | services/data_collect/sa/acquire_data_subscribe_manager.cpp:449-456 | the excluded step is reachable for every event: one insert overtaken by one removal leaves a session subscribed at rest to a collector that does not run |
| DataCollections.DataCollection.IncrementSubscribeCount | services/collector_manager/src/data_collection.cpp:88-97 | a count starts at one and grows modulo 2^32 |
| DataCollections.DataCollection.DecrementSubscribeCount | services/collector_manager/src/data_collection.cpp:99-113 | a count is lowered modulo 2^32, or erased when it would reach zero, and the answer says whether others remain |
| DataCollections.DataCollection.StartCollectors | services/collector_manager/src/data_collection.cpp:37-70 | succeeds exactly if no position of the list fails; then precisely the listed collectors run besides those of before; if it fails the loader map is what stopping the newly loaded leaves, and as before exactly if the libraries still hand out what was loaded, for any list with repeats |
| DataCollections.DataCollection.StopCollectors | services/collector_manager/src/data_collection.cpp:128-164 | drops exactly the listed loaders, and reports success exactly if each loaded one is named once, is handed out and agrees to stop |
| DataCollections.DataCollection.SubscribeCollectors | services/collector_manager/src/data_collection.cpp:172-244 | the whole new state and code of a subscription that succeeds, fails at some position or is refused, tied to closed definitions |
| DataCollections.DataCollection.UnsubscribeCollectors | services/collector_manager/src/data_collection.cpp:246-285 | the two-phase loops have the effect of the closed definitions on loaders, counts and code |
| DataCollections.UnloadingNewRestoresExactly | services/collector_manager/src/data_collection.cpp:52-61 | stopping what a list has newly loaded gives back the loaders of before exactly if the libraries still hand out what was loaded |
| DataCollections.StopCodeTells | services/collector_manager/src/data_collection.cpp:128-164 | the collected code is success exactly for cleanly stopping lists |
| DataCollections.SubscribeCodeTells | services/collector_manager/src/data_collection.cpp:172-203 | a subscription succeeds exactly if every position of the list runs already or starts; otherwise it returns what the lookup, or if that went well the loading, answered at the first position that does not |
| DataCollections.UnsubscribeCodeTells | services/collector_manager/src/data_collection.cpp:246-285 | for a list without repeats: success exactly if every loaded event that loses its last subscription is handed out and stops; otherwise the answer of the last one that does not |
| DataCollections.LoadedLibraryIs | services/collector_manager/src/data_collection.cpp:190-203 | an event is loaded from the library found for the first position that names it |
| CollectorLedger.SubscribeKeepsRunning | services/collector_manager/src/data_collection.cpp:172-244 | whatever the list and whatever fails, a subscription never takes away a collector that ran before it |
| CollectorLedger.FailedSubscribeLoaders | services/collector_manager/src/data_collection.cpp:190-200 | which collectors beside those of before run after a failed subscription: exactly those it loaded whose count says others need them or whose library no longer hands them out |
| CollectorLedger.EveryRunIsAccounted | services/collector_manager/src/data_collection.cpp:88-113 | over every run of fewer than 2^32 calls, failing subscriptions and libraries that stop handing out their collectors included: each count is the live subscriptions plus the counts leaked by failures, no stored count is zero so no decrement wraps, and what is subscribed is loaded |
| CollectorLedger.LeaksExactlyOnFailure | services/collector_manager/src/data_collection.cpp:180-203 | counts leak in a run exactly if some subscription of it failed |
| CollectorLedger.LiveLibrariesAreCounted | services/collector_manager/src/data_collection.cpp:172-285 | while libraries keep handing out their collectors, whatever is loaded is counted |
| CollectorLedger.FailureFreeRunsAreExact | services/collector_manager/src/data_collection.cpp:172-285 | without failed subscriptions a count is the number of live subscriptions, and, while libraries keep handing out their collectors, a collector is loaded exactly while there is one |
| CollectorLedger.LastSubscriptionStopsExactly | services/collector_manager/src/data_collection.cpp:246-285 | the last subscription of an event takes its collector with it exactly if no count of it has leaked and its library still hands it out |
| CollectorLedger.StepCoincidesExactly | services/collector_manager/src/data_collection.cpp:172-285 | where collectors are loaded exactly while subscribed, a call keeps it so exactly if every collector that loses its last subscription, or that a failing subscription has to take back, has no leaked count and is still handed out, whatever failed before |
| CollectorLedger.RunCoincidesExactly | services/collector_manager/src/data_collection.cpp:172-285 | over every run of fewer than 2^32 calls, failing ones included: after each call the loaded collectors are the subscribed ones, if and only if each call of the run meets that condition |
| CollectorLedger.LeakedCollectorNeverStops | services/collector_manager/src/data_collection.cpp:246-285 | a loaded collector with a leaked count stays loaded in every continuation |
| CollectorLedger.CollectorOutlivesItsSubscribers | services/collector_manager/src/data_collection.cpp:182-197 | for every event: a failed subscription, a successful one and its removal leave the collector loaded with nobody subscribed |
| CollectorLedger.CountWraps | services/collector_manager/src/data_collection.cpp:88-97 | after n subscriptions to one event the stored count is n modulo 2^32, so the bound on the number of calls is sharp |
| BatchQuery.Batch | frameworks/common/collector/src/i_collector.cpp:23-36 | the default batch query appends the answers in order and the ids of the rulers that fail |
| BatchQuery.LoadAndQueryBySoPath | services/collector_manager/src/data_collection.cpp:533-565 | a group adds the outcomes of its own rulers; a library that does not load adds nothing, a missing collector only failures |
| BatchQuery.Group | services/collector_manager/src/data_collection.cpp:512-522 | the grouping loop puts each configured ruler into the group of its library, in order, and the ids of the others into the failures |
| BatchQuery.QuerySecurityEventBatch | services/collector_manager/src/data_collection.cpp:501-531 | for any order of the groups the events and the failed ids are, as multisets, those of asking one ruler after the other |
| BatchQuery.NothingIsDroppedIffLibrariesLoad | services/collector_manager/src/data_collection.cpp:538-542 | every ruler is answered or reported exactly if no configured library of theirs fails to load |
| SubscriberTable.SecurityCollectorSubscriberManager.GetAppSubscribeCount | services/security_collector/src/security_collector_subscriber_manager.cpp:103-114 | the count is that of the greatest event alone, because each event overwrites the one before; in a valid table it is at most one |
| SubscriberTable.SecurityCollectorSubscriberManager.FindEventIds | services/security_collector/src/security_collector_subscriber_manager.cpp:129-143 | the events that have a subscriber of the remote object |
| SubscriberTable.SecurityCollectorSubscriberManager.FindSecurityCollectorSubscribers | services/security_collector/src/security_collector_subscriber_manager.cpp:145-158 | exactly one subscriber of the remote object for each such event |
| SubscriberTable.SecurityCollectorSubscriberManager.SubscribeCollector | services/security_collector/src/security_collector_subscriber_manager.cpp:159-189 | keeps at most one subscriber per app and event; succeeds exactly if the app has none there and collecting starts (the cap of 100 never refuses); adds that one subscriber and nothing else |
| SubscriberTable.SecurityCollectorSubscriberManager.RemoveFrom | services/security_collector/src/security_collector_subscriber_manager.cpp:207-219 | the inner loop removes the one subscriber that belongs to the event, and asks to stop collecting between one and all found subscribers' times if that was the last |
| SubscriberTable.SecurityCollectorSubscriberManager.RemoveEvents | services/security_collector/src/security_collector_subscriber_manager.cpp:198-221 | the outer loop, in the order of the event ids: every event before -1 loses exactly one subscriber of the object, all other entries stay, and below exactly the emptied events are dismissed |
| SubscriberTable.SecurityCollectorSubscriberManager.UnsubscribeCollector | services/security_collector/src/security_collector_subscriber_manager.cpp:191-222 | true exactly if the object has a subscriber and none under event -1; then all of its events lose exactly one of its subscribers; with an event -1 exactly those below it do |
| SubscriberTable.RemovedCompletely | services/security_collector/src/security_collector_subscriber_manager.cpp:207-219 | nothing of the object is left exactly if no event had two subscribers of it |
| SubscriberTable.OthersStay | services/security_collector/src/security_collector_subscriber_manager.cpp:191-222 | subscribers of other objects stay where they were |
| SubscriberTable.RepeatedIs | services/security_collector/src/security_collector_subscriber_manager.cpp:212-218 | asking k times to stop takes min(k, count) counts away: the collector stops exactly if no more than k subscriptions were counted |
| SubscriberAgreement.SubscribeKeepsExactIffStarted | services/security_collector/src/security_collector_subscriber_manager.cpp:181-187 | with one app, 'subscribed events are the loaded collectors, each with count 1' survives a welcome subscription exactly if its collector starts |
| SubscriberAgreement.RemovalKeepsExact | services/security_collector/src/security_collector_subscriber_manager.cpp:191-222 | and it survives a removal on whatever events it gets to, one cut short at event -1 and repeated dismissals included |
| SubscriberAgreement.OneAppRunsAgree | services/security_collector/src/security_collector_subscriber_manager.cpp:159-222 | over every run from the empty table, subscriptions of one app that start and any removals: the table stays valid and of that app, and its events are exactly the loaded collectors, each counted once |
| SubscriberAgreement.TwoAppsLeaveTheCollectorRunning | services/security_collector/src/security_collector_subscriber_manager.cpp:159-222 | two apps subscribe to one event and both leave: the table is empty and the collector still loaded |
| SqlText.Split | services/data_collect/store/src/sg_sqlite_helper.cpp:286-295 | the getline loop yields the pieces between delimiters without an empty piece at the end |
| SqlText.Join | services/data_collect/store/src/sg_sqlite_helper.cpp:393-410 | the loop yields the items with the delimiter between them |
| SqlText.SplitUndoesJoinExactly | services/data_collect/store/src/sg_sqlite_helper.cpp:286-295 | splitting joined items gives them back exactly if none contains the delimiter and the last is not empty |
| SqlText.LinesArePieces | services/data_collect/store/src/sg_sqlite_helper.cpp:286-295 | getline drops exactly one empty piece at the end |
| SqlText.JoinUndoesPieces | services/data_collect/store/src/sg_sqlite_helper.cpp:393-410 | joining all pieces of a text gives the text back |
| SqlConditions.KeysAreRead | services/data_collect/store/src/sg_sqlite_helper.cpp:332-346 | a key is read as field and operator exactly if it is that field with that suffix, or a field that ends in no suffix |
| SqlConditions.GenericValues.Put | services/data_collect/store/src/generic_values.cpp:20-38 | the first value put under a key stays |
| SqlConditions.GenericValues.Remove | services/data_collect/store/src/generic_values.cpp:85-90 | removes the key if it is there |
| SqlConditions.GenericValues.GetAllKeys | services/data_collect/store/src/generic_values.cpp:76-83 | enumerates every key once |
| SqlConditions.Statement.Bind | services/data_collect/store/src/statement.cpp:119-129 | binds a name to a value; NULL values bind nothing |
| SqlConditions.BuildInPlaceholders | services/data_collect/store/src/sg_sqlite_helper.cpp:275-284 | one numbered placeholder per item of the value |
| SqlConditions.FindOperator | services/data_collect/store/src/sg_sqlite_helper.cpp:342-348 | the loop over the suffixes finds the operator and the field of the key |
| SqlConditions.BuildWhereClause | services/data_collect/store/src/sg_sqlite_helper.cpp:332-368 | the text is the clause text of the map in some enumeration of its keys |
| SqlConditions.PrepareBoundStateStmt | services/data_collect/store/src/sg_sqlite_helper.cpp:297-321 | the bindings are those of the map in some enumeration of its keys |
| SqlMeaning.NamesNeverCollide | services/data_collect/store/src/sg_sqlite_helper.cpp:304-308 | two different keys never bind a name in common, whatever the keys |
| SqlMeaning.TextReads | services/data_collect/store/src/sg_sqlite_helper.cpp:332-368 | an independent reader of clause text never finds a syntax error in the built text, and reads it as the conjunction of its conditions |
| SqlMeaning.TextMeansConditions | services/data_collect/store/src/sg_sqlite_helper.cpp:297-368 | for any meaning of =, >=, < and LIKE and any two key orders, the text under the bindings selects exactly the rows that meet every condition |
| SqlExactness.TextMeansEffective | services/data_collect/store/src/sg_sqlite_helper.cpp:297-368 | for keys with _IN anywhere: the text under its bindings selects exactly the rows that meet the map in which each key with _IN elsewhere than at its end has the value that an item of another key gives its name, or NULL |
| SqlExactness.UnboundSelectsNothing | services/data_collect/store/src/sg_sqlite_helper.cpp:304-311 | such a key makes the query select nothing if no item of another key bears its name |
| SqlExactness.KeepsMeaningExactly | services/data_collect/store/src/sg_sqlite_helper.cpp:297-368 | the translation keeps the meaning of a well-formed map exactly if every such key is given its own value by another key's item, or neither the map nor what is read can be met by any row |
| SqlMeaning.PlaceholdersAreBindings | services/data_collect/store/src/sg_sqlite_helper.cpp:297-321 | the clause mentions exactly the parameters that are bound |
| SqlLiterals.AtLeastIs | services/data_collect/store/src/sg_sqlite_helper.cpp:342-361 | the key f_GE is written as f >= :f_GE and, bound to a value, selects exactly the rows whose f is at least that value |
| SqlLiterals.BelowIs | services/data_collect/store/src/sg_sqlite_helper.cpp:342-363 | the key f_LT is written as f < :f_LT and selects exactly the rows whose f is below the value |
| SqlLiterals.LikeIs | services/data_collect/store/src/sg_sqlite_helper.cpp:342-366 | the key f_LIKE is written as f LIKE :f_LIKE and selects exactly the rows whose f is like the value |
| SqlLiterals.InIs | services/data_collect/store/src/sg_sqlite_helper.cpp:342-358 | the key f_IN selects exactly the rows whose f equals an item between the commas of the value, none if the value is no text |
| SqlLiterals.EqualIs | services/data_collect/store/src/sg_sqlite_helper.cpp:332-341 | a field without suffix is written as f = :f and selects exactly the rows whose f equals the value |
| SqlLiterals.RangeQuery | services/data_collect/store/src/database_helper.cpp:124-143 | the conditions of the query by ids and time, in any order of the keys, select exactly the rows of these events from the begin time on and before the end time |
| EventTable.RiskEventRdbHelper.CountEventByEventId | services/data_collect/store/src/database_helper.cpp:176-187 | counts exactly the rows of the event, through built text and bindings |
| EventTable.RiskEventRdbHelper.QueryOldest | services/data_collect/store/src/database_helper.cpp:197-206 | as many rows of the event as there are up to the limit, none younger than one left out |
| EventTable.RiskEventRdbHelper.Delete | services/data_collect/store/src/sg_sqlite_helper.cpp:105-114 | deletes exactly what the built text selects |
| EventTable.RiskEventRdbHelper.DeleteOldEventByEventId | services/data_collect/store/src/database_helper.cpp:189-219 | refuses senseless and too large counts and negative ids; otherwise evicts exactly the oldest rows of the event |
| EventTable.RiskEventRdbHelper.InsertEvent | services/data_collect/store/src/database_helper.cpp:39-50 | appends the row under an id above all others |
| EventTable.ChosenByEventId | services/data_collect/store/src/database_helper.cpp:176-187 | the text of an event condition selects exactly the rows of that event |
| EventTable.DeletedByIds | services/data_collect/store/src/database_helper.cpp:208-218 | the text of joined row ids deletes exactly the rows with these ids |
| EventStore.DatabaseManager.InsertEvent | services/data_collect/store/src/database_manager.cpp:48-82 | the batch loop is a trace of single steps from the old to the new table, and the code is NOT_FOUND exactly if some unknown event is followed by no stored one, success otherwise |
| EventStore.NotFoundExactly | services/data_collect/store/src/database_manager.cpp:51-79 | the running code of the loop ends as NOT_FOUND exactly if some unknown event is followed by no stored one |
| EventStore.UnknownIsHiddenExactly | services/data_collect/store/src/database_manager.cpp:51-79 | a batch with unknown events reports success exactly if each of them is followed by a stored event |
| EventStore.HiddenNotFound | services/data_collect/store/src/database_manager.cpp:56-77 | for any configuration: an unknown event alone reports NOT_FOUND, the same event followed by a stored one reports success |
| EventStore.DatabaseManager.StoreOne | services/data_collect/store/src/database_manager.cpp:69-78 | one stored event is a quota check followed by an insert |
| EventStore.EvictedElsewhere | services/data_collect/store/src/database_helper.cpp:189-219 | eviction touches no row of any other event |
| EventStore.EvictedCount | services/data_collect/store/src/database_helper.cpp:189-219 | eviction leaves exactly the remaining number of rows |
| EventStore.StepLaws | services/data_collect/store/src/database_manager.cpp:71-77 | storing an event puts it last and leaves at most max(1, quota) rows exactly if there was room or the eviction was not refused; negative ids are never limited |
| EventStore.StepTells | services/data_collect/store/src/database_manager.cpp:48-82 | in the terms of the configuration: an event that is unknown, of another source or of another table changes nothing; any other one is stored last, and then as many rows of it stand as before and one more, or the quota where that was reached and the eviction is not refused |
| EventStore.BatchLaws | services/data_collect/store/src/database_manager.cpp:48-82 | after any batch on any table: stored events have at most max(1, quota) rows and their latest insert is present and last; all other events are untouched |
| EventStore.BatchContinuesQueue | services/data_collect/store/src/database_manager.cpp:48-82 | one batch of one source continues the queue of an event: what is left of the earlier inserts and its own are the latest of both |
| EventStore.BatchesAreQueue | services/data_collect/store/src/database_manager.cpp:48-82 | with strictly increasing dates, from an empty start, over any sequence of batches of any sources the rows of an event are exactly its last min(n, quota) inserts, whatever else is inserted in between |
| EventSession.SessionServer.CreatClient | services/data_collect/sa/acquire_data_subscribe_manager.cpp:1181-1204 | makes an empty session if there is none |
| EventSession.SessionServer.InsertSubscribeRecord | services/data_collect/sa/acquire_data_subscribe_manager.cpp:134-175 | result and session of a subscription, booking and rollback included |
| EventSession.SessionServer.RemoveSubscribeRecord | services/data_collect/sa/acquire_data_subscribe_manager.cpp:432-478 | result and session of an unsubscription; without a session it counts as done |
| EventSession.SessionServer.InsertSubscribeMute | services/data_collect/sa/acquire_data_subscribe_manager.cpp:1004-1057 | a filter is refused if it is there already, cached for an event that is not subscribed, applied otherwise |
| EventSession.SessionServer.RemoveSubscribeMute | services/data_collect/sa/acquire_data_subscribe_manager.cpp:1102-1166 | the first equal filter goes, and an emptied list with it |
| EventSession.CreatingTells | services/data_collect/sa/acquire_data_subscribe_manager.cpp:1181-1204 | a creation succeeds exactly if it is permitted and there is no session |
| EventSession.SubscribingTells | services/data_collect/sa/acquire_data_subscribe_manager.cpp:134-175 | a subscription succeeds exactly if permitted, with a session, and subscribed already or started; then only that event is added; a refusal changes nothing and says why |
| EventSession.UnsubscribingTells | services/data_collect/sa/acquire_data_subscribe_manager.cpp:432-478 | an unsubscription succeeds exactly if permitted, and not subscribed or stopped; then only that event is gone |
| EventSession.AddingTells | services/data_collect/sa/acquire_data_subscribe_manager.cpp:1004-1057 | a filter is set exactly if permitted, in a session without it, with the plugin's consent if the event is subscribed; then it is the last of its event |
| EventSession.RemovingTells | services/data_collect/sa/acquire_data_subscribe_manager.cpp:1102-1166 | a filter is dropped exactly if permitted, in a session with it, with the plugin's consent if the event is subscribed; then the first one equal to it is gone |
| FilterProtocol.CopiesBelowPeak | services/data_collect/sa/acquire_data_subscribe_manager.cpp:1004-1057 | in every interleaving of additions and removals (each split at its call of the plugin), subscriptions and session ends, the copies of a filter and those still due are at most the additions of it that overlapped |
| FilterProtocol.AtMostExactly | services/data_collect/sa/acquire_data_subscribe_manager.cpp:1023-1057 | short of further additions a filter can come to stand up to its copies plus the additions under way, and no more |
| FilterProtocol.CopiesExactly | services/data_collect/sa/acquire_data_subscribe_manager.cpp:1023-1057 | over every run: a filter can come to stand more than k times exactly if more than k additions of it overlap, so it is never stored twice exactly if no two additions of it overlap |
| FilterProtocol.AnyNumberOfCopies | services/data_collect/sa/acquire_data_subscribe_manager.cpp:1023-1057 | for every filter and every number a schedule stores that many copies of it |
| FilterProtocol.AddAlone | services/data_collect/sa/acquire_data_subscribe_manager.cpp:1023-1057 | an addition that nothing overtakes does what the sequential call does |
| FilterProtocol.RemoveAlone | services/data_collect/sa/acquire_data_subscribe_manager.cpp:1102-1166 | so does a removal |
| EventClients.EventSubscribeClient.Subscribe | frameworks/common/collect/src/event_subscribe_client.cpp:209-233 | the client books the event after the server has agreed |
| EventClients.EventSubscribeClient.Unsubscribe | frameworks/common/collect/src/event_subscribe_client.cpp:235-259 | the client drops the event after the server has agreed |
| EventClients.EventSubscribeClient.AddFilter | frameworks/common/collect/src/event_subscribe_client.cpp:261-290 | the client appends the filter after the server has agreed |
| EventClients.EventSubscribeClient.RemoveFilter | frameworks/common/collect/src/event_subscribe_client.cpp:291-327 | the client erases the first equal filter after the server has agreed |
| EventClients.CreatClient | frameworks/common/collect/src/event_subscribe_client.cpp:63-105 | a client is handed out exactly if the service admits it, with empty books |
| EventClients.EventSubscribeClient.Replay | frameworks/common/collect/src/event_subscribe_client.cpp:180-206 | one attempt rebuilds exactly the resubscribed events and the accepted filters, for any order of the events |
| EventClients.EventSubscribeClient.HandleDeath | frameworks/common/collect/src/event_subscribe_client.cpp:162-207 | recovery succeeds exactly if one of the nine attempts reaches the server, and the rebuilt session equals the lost one exactly if every call of the replay is answered with success |
| EventClients.RecoveryIsExact | frameworks/common/collect/src/event_subscribe_client.cpp:187-204 | the rebuilt session is the lost session exactly if all events are resubscribed and all filters accepted |
| EventOutages.CallsWithoutServer | frameworks/common/collect/src/event_subscribe_client.cpp:209-327 | while there is no session no call changes the filters, and the events lost are exactly those a permitted call unsubscribes |
| EventOutages.OutageMirrorsExactly | frameworks/common/collect/src/event_subscribe_client.cpp:162-207 | after an outage with calls before the snapshot and between it and the replay, books and rebuilt session agree exactly if the replay subscribes again just the events not unsubscribed since the snapshot and has every filter accepted |
| EventOutages.UnsubscriptionDuringRecoveryIsLost | frameworks/common/collect/src/event_subscribe_client.cpp:162-207 | with every call of the replay accepted, they agree exactly if no permitted call between snapshot and replay unsubscribes an event of the snapshot |
| EventOutages.OneUnsubscriptionIsEnough | frameworks/common/collect/src/event_subscribe_client.cpp:235-259 | one such call leaves the rebuilt session with an event the client has dropped, for every subscribed event |
| EventOutages.MirrorInEveryRun | frameworks/common/collect/src/event_subscribe_client.cpp:63-327 | over every run from the creation of a client, with any outcomes of its calls and any number of outages whose replays restore what the client wants: the client's events are the session's, and per event the session's filter list is the client's filters of that event in order, without repeats and without empty lists |
| EventOutages.FirstBadOutageBreaks | frameworks/common/collect/src/event_subscribe_client.cpp:162-207 | the first outage whose replay does not restore that ends the agreement |
| EventBuffers.StoreBuffer.UploadEventToStore | services/data_collect/sa/acquire_data_subscribe_manager.cpp:758-781 | stored and buffered events together are the arrivals in order, and the buffer stays below 64 |
| EventBuffers.StoreBuffer.ClearEventCache | services/data_collect/sa/acquire_data_subscribe_manager.cpp:534-546 | the flush hands over everything in order |
| EventBuffers.EventsAreConserved | services/data_collect/sa/acquire_data_subscribe_manager.cpp:758-833 | in every interleaving each event given is in exactly one place (a position of the buffer, a position of a swapped batch, finished or discarded) and the buffers stay below 64 and 10 |
| EventBuffers.AtRest | services/data_collect/sa/acquire_data_subscribe_manager.cpp:534-556 | at rest every event is buffered, finished or discarded |
| EventBuffers.StoreDiscardsNothing | services/data_collect/sa/acquire_data_subscribe_manager.cpp:758-781 | the way to the store never discards an event |
| EventBuffers.CounterIsBacklog | services/data_collect/sa/acquire_data_subscribe_manager.cpp:814-831 | the task counter is, modulo 2^32, the tasks submitted and not ended less the submissions not yet counted |
| EventBuffers.CrowdedExactly | services/data_collect/sa/acquire_data_subscribe_manager.cpp:820-823 | the counter looks too high exactly if more tasks are pending than allowed or a task ended before it was counted, which makes the unsigned counter huge |
| EventBuffers.DiscardedExactly | services/data_collect/sa/acquire_data_subscribe_manager.cpp:814-831 | in every interleaving a step discards events exactly if a caller finds more tasks pending than allowed, finds the counter below zero, or finds no queue; then it discards one full batch |
| EventDiscards.DiscardedWithNothingPending | services/data_collect/sa/acquire_data_subscribe_manager.cpp:814-831 | such a schedule exists for every limit below 2^32 - 1: ten events are discarded while no task is waiting or running |
| EventCompletion.EveryEventCanEnd | services/data_collect/sa/acquire_data_subscribe_manager.cpp:758-833 | from every reachable state some continuation leaves nothing buffered and nothing under way, every event finished or discarded |
| EventCompletion.FlushTells | services/data_collect/sa/acquire_data_subscribe_manager.cpp:534-556 | a flush takes the whole buffer, in order, and touches nothing else |
| EventQueue.NotifyBuffer.BatchUploadEvent | services/data_collect/sa/acquire_data_subscribe_manager.cpp:802-833 | the tenth event submits the batch as a task, or drops it whole if too many tasks wait or there is no queue |
| EventQueue.NotifyBuffer.RunTask | services/data_collect/sa/acquire_data_subscribe_manager.cpp:814-819 | the first task of the serial queue uploads its events one by one and counts itself off |
| EventQueue.NotifyBuffer.ClearEventCache | services/data_collect/sa/acquire_data_subscribe_manager.cpp:547-556 | the flush uploads the buffer at once, past the waiting tasks |
| EventQueue.BatchesKeepArrivalOrder | services/data_collect/sa/acquire_data_subscribe_manager.cpp:802-833 | over every sequential run whose flushes find no queued task or no buffered event: uploaded, queued and buffered events together are the arrivals in order, without whole discarded batches of ten consecutive arrivals |
| EventQueue.DroppedExactly | services/data_collect/sa/acquire_data_subscribe_manager.cpp:820-831 | a batch is dropped exactly if it is full and too many tasks wait or there is no queue; else nothing is dropped and the order of what waits is kept |
| EventQueue.EverythingIsUploaded | services/data_collect/sa/acquire_data_subscribe_manager.cpp:534-556 | after any run the waiting tasks and one flush upload everything not dropped, in the order of arrival if the flushes before have kept it |
| EventQueue.FlushKeepsOrderExactly | services/data_collect/sa/acquire_data_subscribe_manager.cpp:534-556 | a flush keeps that order exactly if nothing is queued or nothing is buffered |
| CallbackDrain.AcquireDataManagerCallbackService.RegistCallBack | frameworks/common/collect/src/acquire_data_manager_callback_service.cpp:36-44 | a null callback is ignored, another one replaces the slot |
| CallbackDrain.AcquireDataManagerCallbackService.ClearCallBack | frameworks/common/collect/src/acquire_data_manager_callback_service.cpp:46-54 | the slot is emptied |
| CallbackDrain.AcquireDataManagerCallbackService.OnNotify | frameworks/common/collect/src/acquire_data_manager_callback_service.cpp:56-78 | without a callback it fails and calls nothing; otherwise it calls the copied callback once per event in order |
| CallbackDrain.ClearDrains | frameworks/common/collect/src/acquire_data_manager_callback_service.cpp:46-54 | when ClearCallBack returns, in any interleaving, the slot is empty and no thread runs or holds a callback |
| CallbackDrain.InvokedOnlyIfRegisteredSince | frameworks/common/collect/src/acquire_data_manager_callback_service.cpp:56-78 | user code is called only through a callback registered after every ClearCallBack that has returned |
| CallbackDrain.OneCallbackAtATime | frameworks/common/collect/src/acquire_data_manager_callback_service.cpp:56-78 | two threads never run callbacks of one stub at the same time |
| CallbackDrain.NeverStuck | frameworks/common/collect/src/acquire_data_manager_callback_service.cpp:24-29 | the locks are taken in one order: while any thread is under way, one of them can go on |
| CallbackDrain.SlotHoldsTheLast | frameworks/common/collect/src/acquire_data_manager_callback_service.cpp:36-54 | in every interleaving the slot holds exactly the callback registered last, unless a ClearCallBack has returned since |
| CallbackDrain.ThreadsDoTheirCalls | frameworks/common/collect/src/acquire_data_manager_callback_service.cpp:56-78 | in every interleaving a thread registers what its call has offered, and calls its callback once for each event of its call |
| CallbackDrain.RegistAlone | frameworks/common/collect/src/acquire_data_manager_callback_service.cpp:36-44 | a registration that runs alone fills the slot, a null one changes nothing |
| CallbackDrain.ClearAlone | frameworks/common/collect/src/acquire_data_manager_callback_service.cpp:46-54 | a ClearCallBack that runs alone empties it |
| CallbackDrain.NotifyAlone | frameworks/common/collect/src/acquire_data_manager_callback_service.cpp:56-78 | a notification of n events that runs alone calls the callback in the slot n times and no other one |

## Left out

- AuthCoordinator.AnswersReachOnlyTheIssuer: sequence numbers are unbounded integers; the 64-bit overflow of a client's counter is not modelled. A session's client id, a 64-bit hash of time and address, is taken to belong to it alone, so that a request meets each id once and each id has one counter.
- DataCollections.DataCollection.SubscribeCollectors: the sticky form's binding of the new listener to running collectors is an outside call without effect on the two maps and is not modelled; neither is the table of libraries to close.
- SubscribeProtocol.NoCollectorLeaks: assumes non-sticky events of this service, a framework that always or never starts a given event, and collectors that stop on request; the sticky path of `SubscribeScInSg` and `SubscriberEventOnSgStart` change counts outside this ledger.
- EventTable.RiskEventRdbHelper.InsertEvent: statements succeed; failing inserts and deletions, transactions, the listeners told of an insert and the columns that no statement here compares are not modelled.
- EventTable.RiskEventRdbHelper.QueryOldest: ordering and limit of the query are modelled on rows, not as SQL text; dates are ranks in the order of the date texts.
- SqlConditions.Statement.Bind: a binding for a name that the text does not mention is kept although the database refuses it; no reading of the text can tell.
- SqlMeaning.TextMeansConditions: fields are names of word characters; the surrounding SELECT, COUNT and DELETE text is not modelled.
- BatchQuery.QuerySecurityEventBatch: collectors use the default batch query and their answers depend on the ruler alone.
- EventOutages.OutageMirrorsExactly: calls of other threads come between the snapshot and the replay, not between the calls of one replay.
- EventClients.EventSubscribeClient.HandleDeath: filters are values although the source keeps shared pointers to the caller's objects; the waiting between attempts is dropped.
- EventSession.SessionServer.InsertSubscribeRecord: steps around an outside call are one here; their interleavings are the subject of `SubscribeProtocol` and, for filters, of `FilterProtocol`.
- EventBuffers.EventsAreConserved: events are numbered by arrival and their contents left out; the tasks of the queue may run in any order and at the same time, which includes what the serial queue does.
- CallbackDrain.NeverStuck: user callbacks do not call `ClearCallBack`.
- Permissions, tokens, parcels, death-recipient registration and system ability loading are outcomes of outside calls.
- The 400 ms wait is a timeout that may fire at any step.
- What degraded clients are told, client information, status notifications, reports, statistics and logging.
- `IsExceedLimited` and the session quota of `CreatClient`: check and insertion are separate critical sections.
- `UploadEventImmediately`, the token bucket and the publication to subscribers.
- `SubscribeAuthEvent` and `UnsubscribeAuthEvent` with their per-session event ids, and the table of latest results beside the forwarding of `SetAuthResult`: bounded insertions into a set and a map.
- FilterProtocol.CopiesExactly: one client; the sessions of other clients are untouched by its calls. The state of the filter plugin behind `InsertMute` and `RemoveMute` is left out: only its answers matter to the sessions.
- Configuration files and JSON.
