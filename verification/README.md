# Formal model of the virtual-airline backend

A Dafny model of the stateful parts of a Go backend for virtual airlines (VAs), with proofs of what those parts promise.

- **Work queues.** A Redis stream with one consumer group, as a value (`RedisStream`) and as the service calls made on it (`RedisQueue`). Three protocols run over it: the pilot worker with its two-tier retry counter (`PilotUpsert`, `PilotWorker`, `SingleConsumer`, `PilotFifo`, `PilotSync`), the flight-plan worker and its claimer (`FlightPlanWorker`), and the many PIREP workers with theirs (`PirepUpsert`, `PirepProtocol`, `PirepConfluence`, `PirepLoss`, `PirepWorker`).
- **Live flights.** One flight's record (`LiveFlight`), over whole runs of its two writers with atomic steps (`FlightRuns`) and with loads and stores apart (`FlightRaces`); the per-session and per-VA indexes and their reader (`FlightIndex`, `IndexAgreement`, `PipeLists`), over many runs (`IndexRuns`).
- **Events.** The events and event_legs tables (`EventTables`) and the service on top (`EventService`).
- **VA configuration** behind its read-through cache (`VaConfig`).
- **Text.** Callsign patterns (`Callsigns`), the callsign splitter (`CallsignSplit`, `CallsignRoundTrip`), HH:MM times (`FlightTime`).

`Wrappers`, `GoStrings`, `Folds` and `Airtable` hold shared definitions. Code that changes state is a class whose methods equate the new state with a function of the old one; the lemmas are about those functions, and the run lemmas about sequences of their steps in any interleaving.

`dafny verify dfyconfig.toml` checks the whole project. No run lemma bounds the length of the run.

## What the proofs say about the code

Some promises hold outright; of others the model proves exactly when they hold.

- Queue mode and direct mode of the pilot sync leave the same tables once the queue is drained and no usable message was dropped, which a schedule without four faulted passes in a row guarantees (`PilotSync.SyncThenDrain`). They do not record the same sync history: a fetch in which no record is acceptable is recorded in queue mode only (`PilotSync.HistoriesAgreeIff`).
- A pilot message that does not decode is never acknowledged; once it is at the head the worker stops for good (`PilotFifo.MalformedHeadBlocksForever`), and a queue drains if and only if it holds none (`PilotFifo.DrainsIff`; likewise `FlightPlanWorker.DrainsIff`). A PIREP message that does not decode is never acknowledged either, but blocks nobody.
- The pilot retry count survives a restart of the process exactly when the shared cache still has it (`PilotFifo.RestartKeepsCountIff`); each restart costs at most three more attempts (`PilotFifo.WorkBound`), and without restarts the count is exact whatever the cache drops (`PilotFifo.CountsEveryFailure`). The flight-plan retry count has the cache tier only: each expiry that takes a count with it costs at most one more attempt (`FlightPlanWorker.WorkBound`), and with an expiry after every attempt a request is attempted any number of times (`FlightPlanWorker.ExpiringKeyRetriesForever`).
- The bounds of four processings per pilot message and of two attempts per flight-plan request are reached, for every number of messages (`PilotFifo.OutageRun`, `FlightPlanWorker.TwoTriesEach`); when a message leaves the queue, exactly, is `PilotFifo.LeavesIff` and `FlightPlanWorker.RequestLeavesIff`.
- A claim takes a message from its owner if and only if the message is among the first hundred pending and was delivered at least five minutes before (`RedisQueue.ClaimIsExact`, `PirepWorker.QueueWorker.ClaimTick`); so what a crashed PIREP worker had in hand comes back with the first claim that names it that late, and with no earlier one (`PirepProtocol.CrashedIsReclaimedIff`).
- Without database faults, and once every message that decodes has been acknowledged, many PIREP workers leave the table of one ordered pass however they were scheduled, if and only if messages with the same (server_id, at_id) stand for the same row (`PirepConfluence.ScheduleConfluentIff`). With faults that is not so: a message is acknowledged whether or not its row was written, one fault can lose it, and no later step brings it back (`PirepLoss.FaultBreaksOnePass`, `PirepLoss.LostForever`); a row is written if and only if some processing of its message met no fault (`PirepLoss.StoredIffWritten`).
- internal/flights/flight_plan_worker.go:303-304 says in a comment that claimed messages are picked up by the main loop. The code claims them for another consumer name, which nobody reads; the model follows the code (`FlightPlanWorker.ClaimedIsNeverAcknowledged`).
- The two writers of a flight record lock nothing. A run in which no store overwrites one made since its own load is a run of atomic steps, and keeps all their promises (`FlightRaces.FreshRunIsAtomic`). Otherwise both directions fail: a plan can be fetched twice at any distance (`FlightRaces.RacingStoreForgetsFetch`), and a worker's store undoes whatever the job stored during its API call, a takeoff time and waypoints included (`FlightRaces.WorkerStoreUndoesTakeoff`). The exact condition for the next fetch to come too early is `FlightRaces.NextFetchEarlyIff`; which load decides it, `FlightRaces.RacingLoadDecides`.
- The VA index answers for five minutes: a reader sees the flights of the last run that matched the VA, as their records are by then, while that run is younger, and nothing after (`IndexRuns.ReaderSeesLastMatch`).
- Which phase follows which is `LiveFlight.PhaseWhenFast`, `LiveFlight.PhaseWhenSlow` and `LiveFlight.PhaseWhenUnknown`. A flight first seen between 1000 and 8000 feet, at a speed above 50 and at most 300, is taken to be in descent whether it climbs or not (`LiveFlight.InitialPhaseDescentIff`), and its record then stays in descent until it is seen slower than 50, never climbing or cruising (`FlightRuns.FirstSeenLowNeverClimbs`).
- "At most one active multi-leg event per VA" is kept by every run of event creation, status changes and deletions. UpdateEvent and CreateEventLeg do not check it, and each breaks it in a run from empty tables (`EventService.UpdateEventBreaksRule`, `EventService.CreateEventLegBreaksRule`); over runs of all six calls the rule holds throughout if and only if each of those two calls would have passed the missing check (`EventService.RunKeepsRuleIff`).
- SetVaConfig writes keys until it meets one it cannot write. Its result does not depend on the iteration order of the request if and only if every key can be written or those that can bring nothing new (`VaConfig.OrderFreeIff`).

## Model

| member | source | states |
|---|---|---|
| RedisStream.PendingBelowIsLowest | infra/queue/redis_queue.go:181-188 | the pending list shows the lowest ids in increasing order, and leaves one out only when the count is reached |
| RedisStream.PendingBelowIff | infra/queue/redis_queue.go:181-188 | an id is listed if and only if it is pending and fewer pending ids than the count are lower |
| RedisStream.ClaimMovesIff | infra/queue/redis_queue.go:206-213 | a named pending id goes to the claimer, as of now, if and only if it was delivered at least the minimum idle time ago; any other keeps its owner and time |
| RedisQueue.AllEncodable | infra/queue/redis_queue.go:62-76 | when every item marshals, a batch becomes one entry per item, in order |
| RedisQueue.EncodableIsSelect | infra/queue/redis_queue.go:496-526 | of any batch exactly the items that marshal become entries, in order |
| RedisQueue.ReadNewDates | infra/queue/redis_queue.go:93-132 | a read of the next entry makes it pending for the reader as of now, so that it is stale the minimum idle time later and not before |
| RedisQueue.ReadPendingDates | infra/queue/redis_queue.go:531-596 | so does a read of the lowest own pending id, which returns that entry |
| RedisQueue.ClaimIsExact | infra/queue/redis_queue.go:179-241 | an id changes owner in a claim if and only if it is among the first hundred pending and was delivered at least the minimum idle time before they were listed; the claim hands out those of them that decode, in order |
| RedisQueue.FreshIsLeftAlone | infra/queue/redis_queue.go:197-213 | a message delivered less than the minimum idle time ago keeps its owner and its time and is not handed out |
| RedisQueue.RedisQueueService.EnqueueBatch | infra/queue/redis_queue.go:496-526 | the items that marshal are appended in order; delivered, pending and acknowledged ids are untouched |
| RedisQueue.RedisQueueService.Enqueue | infra/queue/redis_queue.go:472-493 | one entry is appended, nothing else changes |
| RedisQueue.RedisQueueService.DequeueNew | infra/queue/redis_queue.go:93-132 | the lowest undelivered entry becomes pending for the caller and is returned, or reported when it does not decode; nothing when there is none |
| RedisQueue.RedisQueueService.XReadPending | infra/queue/redis_queue.go:534-541 | the lowest id pending for this consumer is redelivered and its idle time restarts |
| RedisQueue.RedisQueueService.DequeuePendingFirst | infra/queue/redis_queue.go:531-596 | the consumer's own pending list comes before new entries |
| RedisQueue.RedisQueueService.XAck | infra/queue/redis_queue.go:599-601 | an acknowledgement removes a pending id whoever owns it, and ignores any other id |
| RedisQueue.RedisQueueService.XClaim | infra/queue/redis_queue.go:206-213 | a named id changes owner and is returned if and only if it is pending and was delivered at least the minimum idle time ago |
| RedisQueue.RedisQueueService.StaleIDs | infra/queue/redis_queue.go:197-202 | exactly the ids among the first hundred pending that were delivered at least the minimum time before the listing, in order |
| RedisQueue.RedisQueueService.ParseClaimed | infra/queue/redis_queue.go:218-241 | the parallel lists have one length, hold exactly the entries that decode, and agree position by position |
| RedisQueue.RedisQueueService.ClaimStale | infra/queue/redis_queue.go:179-241 | an id changes owner if and only if it is among the first hundred pending and was delivered at least the minimum idle time before the listing; those that decode are returned with their items, in increasing order |
| SingleConsumer.AckedIsPrefix | internal/pilots/sync_worker.go:75-142 | with one consumer, the acknowledged ids are exactly those before the head, and only the head is ever pending |
| SingleConsumer.ReadGivesHead | infra/queue/redis_queue.go:531-596 | a read returns the oldest entry not yet acknowledged and moves nothing else |
| SingleConsumer.AckAdvances | infra/queue/redis_queue.go:599-601 | acknowledging the head makes the next entry the head and leaves nothing pending |
| SingleConsumer.AppendKeepsHead | infra/queue/redis_queue.go:496-526 | enqueueing adds to the waiting entries and does not move the head |
| PilotUpsert.UpsertFails | internal/pilots/sync_job.go:626-740 | without a fault exactly the records with a usable callsign succeed; a failed attempt never changes roles or cached statistics, and an unusable record never changes anything |
| PilotUpsert.AcceptedIff | internal/pilots/sync_job.go:627-647 | a fault-free upsert succeeds if and only if the callsign column is mapped, present in the record and a text that is not blank |
| PilotUpsert.UpsertWritesPilot | internal/pilots/sync_job.go:649-703 | it writes the pilot row of its VA and record id: the trimmed callsign, the type of the schema, registered if and only if some role of the VA has the callsign up to case; every other row stays |
| PilotUpsert.UpsertLinksRole | internal/pilots/sync_job.go:664-738 | the first role of the VA with that callsign gets the record id in the field of the type and keeps the other; every other role stays; exactly that pilot's statistics are evicted, if there is such a role |
| PilotUpsert.UpsertTouchesOwnRow | internal/pilots/repository.go:24-42 | under any fault no pilot row changes but that of the VA and the record, and a success leaves one there |
| PilotUpsert.FaultLeaves | internal/pilots/sync_job.go:673-719 | what each database fault leaves behind: nothing, or the pilot row alone |
| PilotUpsert.FindRoleIsFirst | internal/pilots/sync_job.go:667-678 | the role lookup finds the first holder of the callsign, if and only if there is one |
| PilotUpsert.LinkingKeepsLookups | internal/pilots/sync_job.go:670-719 | linking a role changes no later role lookup by callsign |
| PilotUpsert.CleanAttemptConverges | internal/pilots/sync_job.go:626-740 | after any attempt on a record, complete or halfway, a clean attempt reaches what a single clean attempt would have |
| PilotUpsert.QueueTripKeepsColumns | internal/pilots/sync_job.go:892-932 | every field mapping lookup survives the trip through the queue schema |
| PilotUpsert.QueueTripKeepsNames | internal/pilots/sync_job.go:892-932 | types, table and field names come back from the queue as they went; everything else comes back at its zero value |
| Airtable.ColumnIsFirst | internal/platform/va/config_dtos.go:72-79 | a field mapping lookup finds the first mapping with the name, if and only if there is one |
| Airtable.LookupIff | internal/pilots/sync_job.go:628-636 | a value is found if and only if its column is mapped and the record holds it there |
| PilotUpsert.QueueTripKeepsUpsert | internal/pilots/sync_job.go:892-932 | upserting under the schema that went through the queue is upserting under the original; a second trip loses nothing more |
| PilotWorker.AttemptOutcome | internal/pilots/sync_worker.go:145-154 | what one attempt on a queued pilot may do: its success is that of a clean attempt, its failure makes no difference to a later one, and without a schema it does nothing |
| PilotWorker.AttemptTouchesOwnRow | internal/pilots/sync_worker.go:145-154 | an attempt touches no pilot row but that of the item's own VA and record |
| PilotWorker.PilotJobConverges | internal/pilots/sync_worker.go:145-154 | the worker's job meets the condition that the queue theorems ask of any job |
| PilotWorker.SyncWorker.GetRetryCount | internal/pilots/sync_worker.go:157-180 | the cache tier first, then memory, then zero |
| PilotWorker.SyncWorker.IncrementRetryCount | internal/pilots/sync_worker.go:183-203 | both tiers get one more than the count in force |
| PilotWorker.SyncWorker.ClearRetryCount | internal/pilots/sync_worker.go:206-222 | both tiers forget the message and nothing else |
| PilotWorker.SyncWorker.ProcessNext | internal/pilots/sync_worker.go:75-142 | one pass on stream, counters and tables: a message whose attempt fails with fewer than three tries counted stays pending with one try more in both tiers, any other is acknowledged and forgotten by both; the error comes exactly when the head does not decode |
| PilotFifo.CounterIsExact | internal/pilots/sync_worker.go:157-222 | the two-tier count shows the head's tries, never more than its failed attempts, and both tiers hold pending ids only |
| PilotFifo.CountsEveryFailure | internal/pilots/sync_worker.go:157-222 | without restarts it is the number of failed attempts on the head, whatever cache entries vanish and when |
| PilotFifo.EventsShow | internal/pilots/sync_worker.go:157-222 | a batch and an entry arrive behind all others, an expiry empties the cache tier of the ids and a restart the memory tier, and nothing else changes |
| PilotFifo.FailedStays | internal/pilots/sync_worker.go:96-110 | a head that has failed fewer than three times and fails again stays where it is, and the failure is counted |
| PilotFifo.LeavesIff | internal/pilots/sync_worker.go:93-124 | at every point of every run the head leaves if and only if a pass succeeds on it or finds three failures counted; a usable message is lost if and only if such a pass fails; without restarts it has then failed exactly three times before |
| PilotFifo.FourTriesEach | internal/pilots/sync_worker.go:93-124 | while the database is down, each of any number of messages is tried exactly four times |
| PilotFifo.OutageRun | internal/pilots/sync_worker.go:93-124 | for every list of n messages a run of exactly 4n processings, which writes nothing and empties the queue |
| PilotFifo.PassIsAttempt | internal/pilots/sync_worker.go:75-142 | a pass of the worker is one attempt on the head of a plain first-in first-out queue |
| PilotFifo.StepRefines | internal/pilots/sync_worker.go:75-142 | each of enqueue, append, pass, cache expiry and restart is simulated by that queue |
| PilotFifo.WorkerRefinesFifo | internal/pilots/sync_worker.go:51-142 | every run of the worker is a run of that queue |
| PilotFifo.RestartKeepsCountIff | internal/pilots/sync_worker.go:157-180 | without the in-memory tier the count is right if and only if the cache has it or nothing has failed |
| PilotFifo.WorkBound | internal/pilots/sync_worker.go:93-124 | in any run, processings plus remaining work never exceed the initial work, four attempts per message added and three per restart |
| PilotFifo.MalformedStays | infra/queue/redis_queue.go:543-557 | an entry that does not decode stays in the queue, wherever it is and whatever happens |
| PilotFifo.DrainsIff | internal/pilots/sync_worker.go:93-124 | n waiting messages take at most 4n processings and three more per restart, and that many passes empty the queue if and only if every entry decodes, whatever the faults and expiries |
| PilotFifo.MalformedHeadBlocksForever | infra/queue/redis_queue.go:543-557 | behind a head that does not decode, every run only makes the queue longer |
| PilotFifo.RunCatchesUp | internal/pilots/sync_worker.go:75-142 | at every point of a run without losses the tables are those of the completed messages, up to unfinished work on the head |
| PilotFifo.DrainedRunIsOnePass | internal/pilots/sync_worker.go:75-142 | a drained run without losses leaves the tables of one clean attempt per message in enqueue order |
| PilotFifo.ShortStreaksLoseNothing | internal/pilots/sync_worker.go:93-124 | a schedule in which faults never hit more than three passes in a row loses no usable message |
| PilotFifo.DrainsAfter | internal/pilots/sync_worker.go:75-142 | after any run, four more passes per message enqueued and three per restart drain the queue |
| PilotSync.SyncJob.UpsertPage | internal/pilots/sync_job.go:346-354 | a page is upserted record by record; the count is of the accepted records |
| PilotSync.RowsOfRecords | internal/pilots/sync_job.go:346-354 | upserting records leaves a row for exactly the accepted ones, under their VA and id, beside those that were there |
| PilotSync.SyncJob.ProcessPage | internal/pilots/sync_job.go:321-355 | a page is enqueued or upserted, as the mode says, and the other side is untouched |
| PilotSync.SyncJob.SyncVAPilots | internal/pilots/sync_job.go:306-389 | the paging loop processes the pages before the first failing one, fails if there is one, and records the sync exactly when all were fetched and the records counted in its mode are some |
| PilotSync.AdvancedTransitive | internal/pilots/sync_job.go:306-361 | processing two lists of records in turn is processing their concatenation, in both modes |
| PilotSync.CollectedStops | internal/pilots/sync_job.go:314-317 | pages after one that cannot be fetched do not count |
| PilotSync.SettledIsUpserted | internal/pilots/sync_job.go:321-355 | one clean attempt per enqueued item is one direct upsert per record |
| PilotSync.QueueModeRefinesDirectMode | internal/pilots/sync_job.go:306-361 | any run that enqueues the records in batches, interleaved with passes, faults and expiries, and drains without losses, leaves the pilot and role tables of direct mode |
| PilotSync.ScheduleRefinesDirectMode | internal/pilots/sync_job.go:306-361 | the same from the schedule alone: enough passes after the last enqueue, and no four faulted passes in a row |
| PilotSync.SyncThenDrain | internal/pilots/sync_job.go:306-361 | what the paging loop leaves in queue mode, drained by the worker, is what it leaves in direct mode |
| PilotSync.HistoriesAgreeIff | internal/pilots/sync_job.go:363-382 | the two modes leave the same sync history if and only if a page failed, nothing was fetched or some record is acceptable |
| PilotSync.HistoryDivergesOnBadRecord | internal/pilots/sync_job.go:363-382 | a sync of one record without a usable callsign is recorded in queue mode and not in direct mode |
| LiveFlight.InitialPhaseUnknownIff | internal/flights/cache_job.go:490-520 | the exact speeds and altitudes that infer no phase |
| LiveFlight.InitialPhaseDescentIff | internal/flights/cache_job.go:490-520 | the exact speeds and altitudes that infer descent |
| LiveFlight.InitialPhaseGroundIff | internal/flights/cache_job.go:490-496 | the speeds that infer a flight on the ground |
| LiveFlight.InitialPhaseTakeoffIff | internal/flights/cache_job.go:490-520 | the exact speeds and altitudes that infer takeoff |
| LiveFlight.InitialPhaseClimbIff | internal/flights/cache_job.go:490-520 | the exact speeds and altitudes that infer climb |
| LiveFlight.InitialPhaseCruiseIff | internal/flights/cache_job.go:490-520 | the exact speeds and altitudes that infer cruise |
| LiveFlight.PhaseWhenFast | internal/flights/cache_job.go:439-485 | at 50 or faster a known phase changes in four ways and no other: ground to takeoff if and only if above 80, takeoff to climb if and only if above 8000 feet, climb to cruise if and only if above 30000 feet or 300, cruise to descent if and only if below 15000 feet |
| LiveFlight.PhaseWhenSlow | internal/flights/cache_job.go:439-454 | slower than 50 a flight in climb, cruise or descent has landed and any other is on the ground |
| LiveFlight.PhaseWhenUnknown | internal/flights/cache_job.go:421-437 | a first observation, or one of an unknown phase, infers each phase exactly from its speeds and altitudes |
| LiveFlight.TimesWhenObserved | internal/flights/cache_job.go:428-464 | exactly when an observation sets the takeoff time and the landing time |
| LiveFlight.FirstObservation | internal/flights/cache_job.go:295-416 | what a new record holds |
| LiveFlight.InfoWhenObserved | internal/flights/cache_job.go:368-402 | an observation shows as it is, but for the aircraft and livery names that it lacks |
| LiveFlight.WaypointWhenObserved | internal/flights/cache_job.go:523-553 | a waypoint with the observed position is added if and only if there is none yet or the last is a hundred seconds old, and the last 600 stay |
| LiveFlight.ShouldFetchIff | internal/flights/model.go:288-325 | a plan is due if and only if none was fetched or the last is ten minutes old in cruise, two on the ground, five otherwise |
| LiveFlight.FetchInterval | internal/flights/model.go:288-325 | the fetch interval of every phase lies between two and ten minutes |
| LiveFlight.CompleteFlight.PreserveFrom | internal/flights/cache_job.go:368-402 | tracked fields come from the stored record, observed ones stay, names found before are not lost |
| LiveFlight.CompleteFlight.UpdateFlightPhase | internal/flights/cache_job.go:421-485 | the phase step and the two set-once times, in every branch |
| LiveFlight.CompleteFlight.AppendWaypoint | internal/flights/cache_job.go:523-553 | a waypoint is added at most every hundred seconds and the oldest beyond 600 are dropped |
| LiveFlight.BuildCompleteFlight | internal/flights/cache_job.go:295-416 | the record built from an observation and what the cache holds |
| FlightRuns.ObservationAdvances | internal/flights/cache_job.go:421-485 | one observation keeps set times, the time of detection and knowing the phase; it moves the phase forward or to the ground; landed comes from climb, cruise or descent |
| FlightRuns.LoadAfterStore | internal/flights/cache_job.go:150-152 | a stored record is found for exactly seven days |
| FlightRuns.RouteFromEnds | internal/flights/flight_plan_worker.go:410-429 | the route runs from the first waypoint to the last, each in capitals if its name has four characters and else left out; a plan with fewer than two has none |
| FlightRuns.ObservationKeepsLifecycle | internal/flights/cache_job.go:421-485 | off the ground implies a takeoff time, a landing time implies an earlier takeoff |
| FlightRuns.ObservationKeepsHistory | internal/flights/cache_job.go:523-553 | the stored waypoints stay the last 600 of the unpruned log |
| FlightRuns.StepKeepsInv | internal/flights/flight_plan_worker.go:312-383 | every atomic step of either writer keeps lifecycle, waypoint history and the spacing of fetches |
| FlightRuns.Reachable | internal/flights/cache_job.go:295-553 | they hold in every reachable state, for every interleaving and with expiry of the record |
| FlightRuns.StepAdvances | internal/flights/cache_job.go:421-485 | one step of either writer keeps what is set once and moves the phase as allowed; no record begins as landed |
| FlightRuns.RunAdvances | internal/flights/cache_job.go:421-485 | so does every step of every run |
| FlightRuns.SetOnce | internal/flights/cache_job.go:421-485 | between any two points of a record's life, known takeoff and landing times and the time of detection are unchanged and a known phase stays known |
| FlightRuns.PhaseOrder | internal/flights/cache_job.go:421-485 | between visits to the ground the phase never steps back in takeoff, climb, cruise, descent, landed |
| FlightRuns.DescentUntilSlow | internal/flights/cache_job.go:439-485 | over whole runs a record in descent stays in descent for its life until it is seen slower than 50 |
| FlightRuns.FirstSeenLowNeverClimbs | internal/flights/cache_job.go:421-520 | so a flight first seen between 1000 and 8000 feet, above 50 and at most 300, is in descent until then |
| FlightRuns.FetchesApart | internal/flights/flight_plan_worker.go:333-368 | over a whole run any two stored plans are at least two minutes apart and neighbours at least the later phase's interval, however many requests are queued |
| FlightRuns.WritersKeepEachOthersFields | internal/flights/flight_plan_worker.go:360-368 | the job leaves route and fetch time alone, the worker everything else |
| FlightRaces.RaceReachable | internal/flights/cache_job.go:295-416 | with loads and stores apart, in any interleaving, the record's fetch time is that of a stored fetch or none, and the last one unless a stale copy was stored since |
| FlightRaces.RacedIff | internal/flights/cache_job.go:150-152 | the job has raced the last fetch if and only if since then it stored a copy loaded before it |
| FlightRaces.NextFetchEarlyIff | internal/flights/flight_plan_worker.go:333-343 | within the interval after a stored plan another fetch is let through if and only if the job has raced it and the fetch its copy knew of, if any, is old enough |
| FlightRaces.RacingLoadDecides | internal/flights/cache_job.go:302-303 | after a race, the next request within the interval is let through if and only if no plan had been stored before the load of the racing copy, or the last of them is old enough |
| FlightRaces.SpacedUnlessRaced | internal/flights/flight_plan_worker.go:333-368 | in a run in which the job stores no copy from before the last fetch, fetches keep their distance, whatever the worker overwrites |
| FlightRaces.ActSimulates | internal/flights/flight_plan_worker.go:312-383 | a store of a copy loaded after the last store completes one atomic step |
| FlightRaces.FreshRunIsAtomic | internal/flights/cache_job.go:295-416 | a run in which nothing stale is stored is, store by store, a run of atomic steps |
| FlightRaces.FreshRunKeeps | internal/flights/cache_job.go:295-553 | so lifecycle, waypoint history, set-once times and the spacing of fetches hold throughout it |
| FlightRaces.RacingStoreForgetsFetch | internal/flights/cache_job.go:295-416 | for every distance from zero up to a record's lifetime, a run with two fetches that far apart |
| FlightRaces.WorkerStoreRestores | internal/flights/flight_plan_worker.go:318-368 | whatever the job stored while the worker held its copy is undone by the worker's store, but for the route |
| FlightRaces.WorkerStoreUndoesTakeoff | internal/flights/flight_plan_worker.go:318-368 | a run in which one record has a takeoff time and two waypoints, then neither, then another takeoff time |
| FlightPlanWorker.ProcessingIsAtomicStep | internal/flights/flight_plan_worker.go:312-383 | processing a request is the worker's step of the flight runs, touches no other flight, and changes nothing when it fails |
| FlightPlanWorker.ProcessingOutcome | internal/flights/flight_plan_worker.go:312-383 | failure without a cached flight, nothing to do without a due plan, else what the API answers; an answer is stored for seven days |
| FlightPlanWorker.RequestLeavesIff | internal/flights/flight_plan_worker.go:165-260 | a request leaves the queue if and only if it is processed, has failed before, is refused for good or its flight is no longer cached |
| FlightPlanWorker.FlightPlanWorker.IncrementRetryCount | internal/flights/flight_plan_worker.go:68-78 | the count goes up by one from what the cache still knows |
| FlightPlanWorker.FlightPlanWorker.HandleFailure | internal/flights/flight_plan_worker.go:165-260 | a failed request is acknowledged exactly when attempts are used up, the API error is permanent or the flight is no longer cached, and is otherwise kept with its count |
| FlightPlanWorker.FlightPlanWorker.Pass | internal/flights/flight_plan_worker.go:130-281 | one pass of the main loop on stream, counts and flights |
| FlightPlanWorker.PassIsAttempt | internal/flights/flight_plan_worker.go:130-281 | a pass is one attempt on the head of a first-in first-out queue |
| FlightPlanWorker.EventRefines | internal/flights/flight_plan_worker.go:130-281 | passes, appends, expiring retry keys and other writers of the flights are each simulated by that queue |
| FlightPlanWorker.WorkerRefinesFifo | internal/flights/flight_plan_worker.go:130-281 | every run of the worker, the claimer aside, is a run of that queue |
| FlightPlanWorker.WorkBound | internal/flights/flight_plan_worker.go:165-260 | in any run attempts plus remaining work never exceed the initial work, two per appended request and one per expiry that takes the head's count |
| FlightPlanWorker.MalformedStays | infra/queue/redis_queue.go:322-336 | an entry that does not decode stays in the queue |
| FlightPlanWorker.DrainsIff | internal/flights/flight_plan_worker.go:130-281 | with nothing appended and no count lost, n requests take at most 2n attempts, and 2n passes empty the queue if and only if every entry decodes, whatever the API answers and whoever writes the flights |
| FlightPlanWorker.TwoTriesEach | internal/flights/flight_plan_worker.go:165-260 | for every number of requests whose flights are cached and due, a run that makes exactly two attempts for each and takes all of them off the queue |
| FlightPlanWorker.ExpiringKeyRetriesForever | internal/flights/flight_plan_worker.go:48-87 | for every n a run with n attempts on a request that still heads the queue, its retry key expiring after each |
| FlightPlanWorker.ClaimOrphansIff | internal/flights/flight_plan_worker.go:286-309 | a claim gives a request to the claimer's name if and only if it is named, pending and was delivered at least the minimum idle time ago |
| FlightPlanWorker.OrphanStays | internal/flights/flight_plan_worker.go:286-309 | no pass, claim or enqueue takes a message away from the claimer's name |
| FlightPlanWorker.ClaimedIsNeverAcknowledged | internal/flights/flight_plan_worker.go:286-309 | in every run a claimed message stays pending for ever |
| PirepProtocol.ClaimKeepsInv | internal/pireps/queue_worker.go:383-420 | a claim keeps the protocol invariant |
| PirepProtocol.ClaimTakesIff | internal/pireps/queue_worker.go:395-416 | a claim moves and hands out a message if and only if it is named, pending and was delivered at least the minimum idle time ago, and, to be handed out, decodes |
| PirepProtocol.CrashLosesHand | internal/pireps/queue_worker.go:102-146 | a crash loses what the worker had in hand and nothing else |
| PirepProtocol.CrashedIsReclaimedIff | internal/pireps/queue_worker.go:383-420 | after a crash, a claim that names a pending message brings it back in hand if and only if it was delivered at least the minimum idle time ago |
| PirepProtocol.AppendArrives | infra/queue/redis_queue.go:496-526 | an appended message is last, and in nobody's hand |
| PirepProtocol.WorkKeepsInv | internal/pireps/queue_worker.go:102-146 | processing, acknowledging and crashing keep it |
| PirepProtocol.StepKeepsInv | internal/pireps/queue_worker.go:102-146 | so does every step of every worker |
| PirepProtocol.Reachable | internal/pireps/queue_worker.go:102-146 | in every reachable state a message is undelivered, pending with one owner or acknowledged, and acknowledged only after processPirep ran on it |
| PirepProtocol.MalformedIsNeverAcknowledged | infra/queue/redis_queue.go:93-132 | in no run is an entry acknowledged that does not decode |
| PirepUpsert.RowTexts | internal/pireps/queue_worker.go:168-273 | flight mode, aircraft, livery and flight time of a row, each from its own field, the livery from the older airline field only if livery is not mapped |
| PirepUpsert.RowRouteID | internal/pireps/queue_worker.go:192-290 | the linked route is the first id of route_at_id, or of the route field if and only if that one links to nothing |
| PirepUpsert.RowPilotID | internal/pireps/queue_worker.go:235-308 | the linked pilot is the first id of pilot_at_id, or of the callsign field if and only if that one links to nothing |
| PirepUpsert.RowNames | internal/pireps/queue_worker.go:310-358 | the callsign is what the VA's synced pilots say of the linked pilot; the route is the record's own text, or what the synced routes say of the linked one when that is blank |
| PirepUpsert.ProcessedWrites | internal/pireps/queue_worker.go:148-165 | a message fails without effect if and only if its VA has no PIREP schema or the database does not write; else its row alone is overwritten, but for its backfill status |
| PirepConfluence.HoldsIsUnique | internal/pireps/repository.go:23-36 | the rows written determine the table |
| PirepConfluence.WriteHolds | internal/pireps/repository.go:23-36 | an upsert, first or repeated, adds the message's row and keeps the columns it does not list |
| PirepConfluence.AgreementGivesConfluence | internal/pireps/queue_worker.go:168-380 | when equal keys mean equal rows, any schedule of deliveries, crashes, claims and repeats that writes every message leaves the table of one pass |
| PirepConfluence.OnePassKeepsLast | internal/pireps/queue_worker.go:168-380 | one ordered pass leaves the row of the last message with each key |
| PirepConfluence.StalledWorkerWritesLast | internal/pireps/queue_worker.go:102-146 | for every message there is a faultless schedule of two workers that finishes and writes its row last |
| PirepConfluence.DisagreementBreaksConfluence | internal/pireps/queue_worker.go:102-380 | two messages with one key and different rows break it, by a schedule without faults that acknowledges everything |
| PirepConfluence.FaultFreeIsComplete | internal/pireps/queue_worker.go:117-136 | on a schedule without database faults that has acknowledged every decodable message, every row has been written |
| PirepConfluence.ScheduleConfluentIff | internal/pireps/queue_worker.go:102-380 | every such schedule gives the table of one pass if and only if equal keys mean equal rows |
| PirepConfluence.ConfluentIffSameKeySameRow | internal/pireps/queue_worker.go:102-380 | every run, faults included, in which each row was written at least once gives the table of one pass if and only if equal keys mean equal rows |
| PirepLoss.StoredIffWritten | internal/pireps/queue_worker.go:117-136 | in every run a message's row is written if and only if some processing of it met no fault |
| PirepLoss.StepKeepsLost | internal/pireps/queue_worker.go:102-146 | a message acknowledged, unwritten and in no hand stays so through every step |
| PirepLoss.LostForever | internal/pireps/queue_worker.go:102-146 | and through every run |
| PirepLoss.FaultLosesNext | internal/pireps/queue_worker.go:117-136 | from any reachable state, one fault on the next message loses it in three steps |
| PirepLoss.FaultBreaksOnePass | internal/pireps/queue_worker.go:117-136 | a single message with a usable row and one fault: everything acknowledged, the table not that of one pass |
| PirepWorker.QueueWorker.ProcessNext | internal/pireps/queue_worker.go:102-146 | a message that was read is acknowledged whether or not its row was written, and counted as one or the other; one that does not decode stays pending |
| PirepWorker.QueueWorker.ProcessClaimed | internal/pireps/queue_worker.go:402-416 | claimed messages are processed in order and all acknowledged |
| PirepWorker.QueueWorker.ClaimTick | internal/pireps/queue_worker.go:383-420 | one tick: exactly the ids among the first hundred pending that were delivered five minutes or more before change owner, those that decode are processed and acknowledged in order; any message delivered later stays as it is |
| PirepWorker.AcknowledgesExactly | internal/pireps/queue_worker.go:402-416 | acknowledging a list of pending ids removes exactly those |
| PirepWorker.PassIsThreeSteps | internal/pireps/queue_worker.go:102-146 | a pass of an idle worker is a delivery, a processing and an acknowledgement of the protocol |
| PirepWorker.RoundsWorkOff | internal/pireps/queue_worker.go:402-416 | working off claimed messages is a processing and an acknowledgement step for each, in order |
| PirepWorker.TickIsClaimAndRounds | internal/pireps/queue_worker.go:383-420 | a claimer tick is a claim step of the protocol followed by those |
| PipeLists.SplitUndoesJoin | internal/flights/cache_job.go:205-216 | a pipe-joined list of ids without pipes splits into the same list |
| PipeLists.SplitJoinIff | internal/flights/service.go:919-919 | a list survives joining and splitting if and only if no id contains the pipe |
| FlightIndex.CacheJob.MatchFlightToVAs | internal/flights/cache_job.go:269-292 | the ids of the patterns that apply, in order, never one without prefix and suffix |
| FlightIndex.CacheJob.Track | internal/flights/cache_job.go:137-183 | the record is stored with this observation and a plan request is queued exactly when one is due |
| FlightIndex.CacheJob.ScanSession | internal/flights/cache_job.go:124-193 | the flights of a session with a callsign and a match are tallied in API order |
| FlightIndex.CacheJob.AddAll | internal/flights/cache_job.go:187-189 | the flight's id goes to the end of each matched VA's list |
| FlightIndex.CacheJob.WriteLists | internal/flights/cache_job.go:204-216 | every list is written to live for five minutes, in any order of the map, and other entries stay |
| FlightIndex.CacheJob.Run | internal/flights/cache_job.go:59-226 | a run is the tally of all tracked flights in scan order; its lists become the index entries |
| FlightIndex.CacheJob.GetVALiveFlights | internal/flights/service.go:896-954 | the reader resolves a list that has not expired id by id, skipping blanks and flights that are gone; an empty VA id is an error |
| FlightIndex.TrackedIff | internal/flights/cache_job.go:126-135 | a flight is tracked if and only if it has a callsign and some pattern with a prefix or a suffix matches it |
| FlightIndex.SightingsIff | internal/flights/cache_job.go:96-193 | a run sights exactly the tracked flights of the sessions that have an id and whose flights could be read |
| FlightIndex.SeenShows | internal/flights/cache_job.go:101-366 | what is noted of a sighted flight; a session without a cached name goes by its id |
| FlightIndex.TallyRequests | internal/flights/cache_job.go:150-183 | tracking stores the record for seven days and queues one plan request for it if and only if the stored record has one due |
| FlightIndex.WrittenListLives | internal/flights/cache_job.go:204-216 | a written list is found for exactly five minutes |
| FlightIndex.ResolvedIff | internal/flights/service.go:896-954 | a DTO is shown if and only if it is that of a live record under a listed id that is not blank |
| FlightIndex.DTOShowsMaxima | internal/flights/dto.go:106-126 | the maximum speed and altitude shown are those of some waypoint and bound those of all; without waypoints none is shown |
| FlightIndex.DTOShowsRecord | internal/flights/dto.go:50-102 | everything else shown is the record's own, and the rest is blank |
| IndexAgreement.VAListCollects | internal/flights/cache_job.go:124-193 | over a run a VA's list takes exactly the flights assigned to it, in scan order |
| IndexAgreement.SessionListCollects | internal/flights/cache_job.go:186-186 | and a session's list exactly its own, in scan order |
| IndexAgreement.RecordIsFresh | internal/flights/cache_job.go:137-183 | when no flight is listed twice each record is its previous version plus this observation |
| IndexAgreement.TallyIsObserveStep | internal/flights/cache_job.go:137-183 | tracking a flight is the job's step of the flight runs on that record and touches no other |
| IndexAgreement.VAsOfIff | internal/flights/cache_job.go:269-292 | with distinct VA ids a flight is assigned to a VA if and only if its pattern applies |
| IndexAgreement.FilterAgrees | internal/flights/cache_job.go:124-193 | the tracked flights of a VA are those its pattern selects from the API lists |
| IndexAgreement.CollectedAreFiltered | internal/flights/cache_job.go:89-216 | the ids listed for a VA are those of the flights its pattern selects |
| IndexAgreement.IndexAgreesWithFilter | internal/flights/service.go:896-954 | for five minutes after a run, whatever has been stored since, a reader gets the present DTOs of exactly the flights the VA's pattern selected, in scan order, and nothing after that |
| IndexAgreement.IndexAgreesAsObserved | internal/flights/service.go:896-954 | when nothing has been stored since, the DTOs are those of the flights as the run observed them |
| IndexAgreement.PlanShows | internal/flights/dto.go:50-136 | storing a flight plan changes what the reader shows of a flight if and only if it changes the record |
| IndexAgreement.UnmatchedKeepsOldList | internal/flights/service.go:896-954 | a VA that no flight matched keeps the list an earlier run wrote until that expires, and then reads as empty |
| IndexRuns.MatchedIff | internal/flights/cache_job.go:269-292 | a run lists flights for a VA if and only if its pattern selects some, and lists exactly those |
| IndexRuns.PlanRequestIsStore | internal/flights/flight_plan_worker.go:312-383 | processing a plan request is one of the stores between runs, or changes nothing |
| IndexRuns.LastMatchWroteList | internal/flights/cache_job.go:204-216 | over any runs and stores, a VA's entry is the one the last matching run wrote |
| IndexRuns.ListedLives | internal/flights/cache_job.go:150-152 | a listed flight keeps its record through all later runs and stores |
| IndexRuns.ReaderSeesLastMatch | internal/flights/service.go:896-954 | over any runs, with stores of records between them, a reader gets the present records of the flights the last matching run listed, in scan order, while that run is under five minutes old, and nothing otherwise |
| IndexRuns.NeverMatchedReadsNothing | internal/flights/service.go:896-954 | a VA that no run has matched reads as empty |
| IndexAgreement.LengthsAddUp | internal/flights/cache_job.go:89-216 | session-list lengths sum to the number of tracked flights, VA-list lengths to the number of matches |
| EventTables.OneEventChanges | internal/events/service.go:160-169 | when one event changes, the rule survives if and only if that event does not end up active and multi-leg beside a rival |
| EventTables.ChangesAreLocal | internal/events/repo.go:43-124 | saving, adding and removing change the one row named, and deleting an event its legs as well; nothing else |
| EventTables.CreationIsLocal | internal/events/repo.go:22-41 | a created event comes beside everything that was there, with its own legs alone |
| EventTables.SaveKeepsRuleIff | internal/events/service.go:180-219 | when saving an event's row keeps the rule |
| EventTables.LegKeepsRuleIff | internal/events/service.go:341-369 | when adding a leg keeps the rule |
| EventTables.CreateKeepsRuleIff | internal/events/service.go:160-169 | when creating an event keeps the rule |
| EventTables.RemovingKeepsRule | internal/events/service.go:222-233 | removing events or legs always keeps it |
| EventTables.NumberedLegAt | internal/events/service.go:143-158 | the legs of a new event are numbered from one in request order |
| EventService.NewLegIsConsistent | internal/events/repo.go:149-160 | the next leg number and a free route satisfy the tables' constraints |
| EventService.ValidEventIff | internal/events/service.go:494-516 | which events pass validation: a name that is not blank and at most 255 long, one of the four statuses, dates in order when there are two |
| EventService.AcceptableIff | internal/events/service.go:463-492 | which creation requests do, with an empty status for a draft and every leg's airports two to four characters long |
| EventService.ValidLegIff | internal/events/service.go:518-540 | which legs do |
| EventService.CreatedEventShows | internal/events/service.go:120-142 | the event that a request describes, field by field; an empty status becomes draft |
| EventService.RoutesShow | internal/events/service.go:143-158 | each leg runs from the first airport of its request to the second, trimmed and in capitals |
| EventService.EditedShows | internal/events/service.go:188-206 | an update replaces the fields it gives and keeps the others |
| EventService.CreatedIsConsistent | internal/events/repo.go:22-41 | a created event with distinct routes satisfies them |
| EventService.CallKeepsRule | internal/events/service.go:114-177 | a call the service lets through keeps the constraints, and the rule if and only if it would pass the check that UpdateEvent and CreateEventLeg lack |
| EventService.RunsKeepRule | internal/events/service.go:160-169 | so does every run of such calls; creations, status changes and deletions need no guard |
| EventService.RunKeepsRuleIff | internal/events/service.go:160-169 | over runs of all six calls the rule holds throughout if and only if each unchecked call would have passed |
| EventService.UpdateEventBreaksRule | internal/events/service.go:180-219 | a run of accepted requests from empty tables, creations without legs and legs added to them, at whose end an accepted update breaks the rule |
| EventService.CreateEventLegBreaksRule | internal/events/service.go:341-369 | the same with an accepted leg at the end |
| EventService.Service.GetActiveByVA | internal/events/repo.go:78-86 | exactly the active events of the VA |
| EventService.Service.GetActiveMultiLegEvent | internal/events/service.go:291-305 | an active multi-leg event of the VA if and only if it has one |
| EventService.Service.Insert | internal/events/repo.go:22-41 | event and legs are stored together, or nothing is when a route is repeated; the rule is kept unless the event is active and multi-leg beside a rival |
| EventService.Service.CreateEvent | internal/events/service.go:114-177 | each refusal exactly when its reason holds, without effect; otherwise the event and its numbered legs are added; rule and constraints are kept |
| EventService.Service.UpdateEvent | internal/events/service.go:180-219 | what an update saves and when it is refused; the rule survives if and only if the missing check would pass |
| EventService.Service.UpdateEventStatus | internal/events/service.go:308-338 | while the rule holds, refused exactly for an unknown status, an unknown event or the activation of a multi-leg event beside a rival; rule and constraints are kept |
| EventService.Service.DeleteEvent | internal/events/service.go:222-233 | the event goes with its legs; rule and constraints are kept |
| EventService.Service.GetNextLegNumber | internal/events/repo.go:149-160 | one more than the largest leg number of the event, or one |
| EventService.Service.CreateEventLeg | internal/events/service.go:341-369 | refused exactly for an invalid request, a missing event or a route already there; the number constraint never fires; the rule survives if and only if the missing check would pass |
| EventService.Service.DeleteEventLeg | internal/events/service.go:438-445 | the leg goes, and nothing else; rule and constraints are kept |
| VaConfig.CacheService.GetOrSet | infra/cache/inmemory.go:70-86 | a hit does not load, a loaded value is kept, a failed load changes nothing |
| VaConfig.ValidKeyIff | internal/common/va_config_service.go:45-70 | which settings exist |
| VaConfig.VAConfigService.Expire | infra/cache/inmemory.go:66-68 | losing a cache entry keeps the cache coherent |
| VaConfig.VAConfigService.GetAllConfigValues | internal/common/va_config_service.go:131-172 | a read shows the database, cached or not, and leaves a coherent cache |
| VaConfig.VAConfigService.GetConfigValues | internal/common/va_config_service.go:198-224 | the settings asked for, or failure exactly for an invalid key or an unanswered miss |
| VaConfig.VAConfigService.Upsert | internal/db/repositories/va_gorm_repository.go:185-203 | one setting of one VA is written, or nothing |
| VaConfig.VAConfigService.SetOne | internal/common/va_config_service.go:104-120 | one key is checked, written and its VA evicted, or nothing changes |
| VaConfig.VAConfigService.SetVaConfig | internal/common/va_config_service.go:96-126 | for every iteration order and every failing statement: the keys up to the first that cannot be written are applied, the cache is coherent even then, other VAs are untouched; it succeeds exactly when all keys can be written and the closing read is answered, and then returns the old settings overridden by the request |
| VaConfig.AppliedAppend | internal/common/va_config_service.go:96-126 | going through keys that can be written and then through more is going through both in turn |
| VaConfig.OneMoreKey | internal/common/va_config_service.go:96-126 | one more key is written over what is there, or nothing after it is |
| VaConfig.ValidKeysAllApply | internal/common/va_config_service.go:96-126 | keys that can all be written override the old settings, in any order |
| VaConfig.NothingNewChangesNothing | internal/common/va_config_service.go:96-126 | a request that brings nothing new changes nothing, wherever it stops |
| VaConfig.WrittenStays | internal/common/va_config_service.go:96-126 | a key once written keeps its value for the rest of the call |
| VaConfig.OrderFreeIff | internal/common/va_config_service.go:96-126 | over the orders in which a map can be iterated, each key once, the settings after the call are the same if and only if every key can be written or those that can bring nothing new |
| Callsigns.StripGameSuffixes | internal/common/va_config_service.go:316-328 | the loop strips the first listed suffix found |
| Callsigns.GameSuffixIff | internal/common/va_config_service.go:272-286 | the suffixes are HEAVY, SUPER and FLIGHT OF with a number from one to ten |
| Callsigns.NormalShows | internal/common/va_config_service.go:290-296 | matching is on the trimmed text in capitals |
| Callsigns.OneSuffixAtMost | internal/common/va_config_service.go:272-286 | no callsign ends in two of the game suffixes |
| Callsigns.StrippingIsOrderFree | internal/common/va_config_service.go:316-328 | any order of the suffix list gives the same string, the only one that stripping can mean |
| Callsigns.MatchesIff | internal/common/va_config_service.go:288-311 | a callsign matches if and only if it has the prefix and, its one game suffix looked through, the suffix |
| CallsignSplit.FindFlightOfIsLeftmost | internal/flights/service.go:47-52 | the search for the FLIGHT OF expression finds a match if there is one, the leftmost, with its digits |
| CallsignSplit.SuffixWordIff | internal/flights/service.go:40-45 | " HEAVY" or " SUPER" ends a trimmed callsign if and only if it is the last of at least two words, and cutting it leaves the others |
| CallsignSplit.FlightOfIff | internal/flights/service.go:47-52 | the expression matches if and only if the callsign ends in the words FLIGHT OF and digits after at least one more, and removing it leaves the others |
| CallsignSplit.SplitIsSplitWords | internal/flights/service.go:33-66 | the character-level splitter is a splitter by words, on callsigns whose only blank is the space |
| CallsignRoundTrip.SplitMeans | internal/flights/service.go:33-66 | which words of the callsign the variable part, the prefix and the suffix are, without the splitter's own functions |
| CallsignRoundTrip.SplitDividesRest | internal/flights/service.go:56-66 | with any blanks at all, the last word left without the suffix is the variable part and the others are the prefix |
| CallsignSplit.SuffixHasVariable | internal/flights/service.go:33-66 | on every callsign: there is a variable part if and only if the callsign is not blank, it is one word, and a suffix or prefix comes with one |
| CallsignRoundTrip.SplitUndoesRenderIff | internal/flights/service.go:33-66 | rendering prefix, variable part and suffix and splitting again gives the same three if and only if there is a suffix or the words do not themselves end like one |
| CallsignRoundTrip.RenderOfSplit | internal/flights/service.go:33-66 | rendering a split gives the callsign single-spaced, word for word, only the words of its suffix respelled up to case; of the words before the suffix the last is the variable part and the others are the prefix; splitting that again changes nothing |
| FlightTime.DigitsRoundTrip | internal/pilots/stats_service.go:587-602 | decimal printing and reading are inverse for every number of digits |
| FlightTime.PaddedRoundTrip | internal/pireps/service.go:607-616 | a 64-bit number printed in at least two places is read back |
| FlightTime.DigitsAreDecimal | internal/pilots/stats_service.go:599-601 | numbers are printed in decimal |
| FlightTime.PaddedWidth | internal/pilots/stats_service.go:601-601 | in at least two places, one digit led by a zero and more by none |
| FlightTime.QuoTruncates | internal/pilots/stats_service.go:599-600 | division is toward zero |
| FlightTime.AtoiShows | internal/pireps/service.go:613-614 | digits with or without a sign read as their number, and as the nearest bound when it is too large |
| FlightTime.AtoiOfOther | internal/pireps/service.go:613-614 | any other text reads as zero |
| FlightTime.WrappedShows | internal/pireps/service.go:615-615 | the sum is taken modulo 2 to the 64th |
| FlightTime.OtherTextIsZero | internal/pireps/service.go:608-611 | text that is not two parts around a colon is no time |
| FlightTime.SplitAtColon | internal/pireps/service.go:608-611 | a text with one colon splits into the two sides |
| FlightTime.SecondsRoundTrip | internal/pireps/service.go:607-616 | printing any 64-bit number of seconds and parsing it loses exactly the odd seconds |
| FlightTime.TextRoundTrip | internal/pilots/stats_service.go:587-602 | HH:MM with minutes below sixty is printed as it was read |

## Left out

- HTTP handlers, templates, middleware, metrics, logging and JSON encoding; stored JSON is taken to be a faithful round trip of the modelled fields, and the items of the pilot sync to marshal.
- The Airtable and Live API clients: a provider is a list of pages, an API call one answer, permanent errors one of its kinds rather than a match on error text.
- Credentials, schema parsing and the incremental filter before the paging loop; SyncVACareerModePilots and linkCareerModePilot, with career-mode linking taken to be unconfigured.
- Database faults in direct mode: direct mode is the fault-free reference that queue mode is compared with.
- Redis errors, failed acknowledgements, blocking reads, TrimStream and deleted entries; an entry's id is its position.
- More than one cache job or flight-plan worker at a time. One cache-job run reads one clock, at which its lists are also written; cache writes do not fail.
- The coherence of `VaConfig` is that of one service: internal/platform/va/config_service.go:136 writes the same table and evicts only the cache it was given (internal/app/app.go:260 and internal/app/app.go:418 pass different ones), so with both in use a cached map can be ten minutes old.
- IndexAgreement.IndexAgreesWithFilter: for flight ids that are not empty and contain no pipe; the pattern matcher is a parameter of the index, since the one in internal/platform/va is the same code as `Callsigns.MatchesVAPattern`.
- CallsignSplit.SplitIsSplitWords: for callsigns whose only blank is the space, because other blanks hide HEAVY and SUPER from the suffix test; text is ASCII throughout.
- GetAllCallsigns, whose separate cache entry SetVaConfig does not evict and which can be ten minutes old.
- What gorm does beyond the repository's text: `EventService.Service.Insert` stores an event once and its legs once. If gorm already saves the legs with the event, storing them again fails on their ids and every creation with legs is refused; the runs that break the rule create events without legs and so do not depend on it.
- Leg updates, additional data and listings of events; generated columns such as ids, created_at and updated_at arrive as parameters or not at all.
- Rounding in normalizeAltitude and its relatives: positions arrive normalized. Creation times of PIREPs arrive parsed. formatTimeSeconds of a float.
- MatchCallsignVar, FilterFlights and other readers of the tables that only select.
