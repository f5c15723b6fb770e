# Marine data engine: a verified model

This project models the stateful and numeric cores of the marine data engine's backend
(`src/marine_data_engine`) in Dafny and proves what they promise. It is checked with

    dafny verify dfyconfig.toml

Each module follows one part of the backend:

| module | models |
|---|---|
| `WorkQueue` | the in-memory work queue: idempotent publish, stable priority order, retry with jittered backoff, dead letters |
| `SingleFlight`, `LockLifetime`, `CallHistory`, `DocumentCache` | the bulletin cache: single-flight election over a faulty shared store, waiting, time-out, fail-open accounting; locks with a lifetime; what one call finds over a whole run; and the cache object, whose calls are runs of that machine |
| `AlertBroker` | the WebSocket alert broker: bounded replay, fan-out, and its non-atomic variant |
| `Risk`, `SeaState`, `SafetyGate`, `SafeWindow` | the safety engine: weighted risk score, categorical sea states, the go/no-go gate, safe time windows |
| `DatasetHealth` | dataset freshness, and the status machine driven by ingests, source errors and sweeps |
| `Ingestion`, `IngestionService` | ingestion of fetched records: idempotent rows, lineage, tallies, notices to the work queue |
| `WaveWatch`, `ProbeGrid` | selection of wave-model grid nodes, and the order in which grid offsets are probed |
| `Bulletin` | the scanner that turns bulletin text nodes into area blocks |
| `Text`, `Readings`, `Numbers`, `Sequences`, `Wrappers` | shared helpers |

Where the backend mutates objects, the model has classes and loops. Their methods are proved against functions on
values, and the promises are proved about those functions, for all inputs and over all runs. The cache is concurrent: a
call of the cache object is proved to be a run of the shared step machine, with arbitrary steps of other calls and of
the store between its own, and to have said to the store, request by request, what its steps say.
Numbers are exact reals with explicit `Absent` and `NaN` readings. Time, random jitter, store faults, generated
identifiers and the results of loaders are parameters or arbitrary choices.

## What the proofs found

Some promises hold only under a condition; each is stated exactly, with a concrete input or run beside it.

- A failure report for a message that already left the queue dead-letters it a second time
  (`WorkQueue.NackConservesExactly`, `WorkQueue.FailureAfterAckIsBookedTwice`).
- The single-flight lock is deleted unconditionally and expires on its own: an expiry during a hold, or a lock
  operation whose error misleads about its effect, spoils the election, either by electing two fetchers or by leaving a
  lock that no fetcher holds (`SingleFlight.ExclusionIsKeptExactly`, `SingleFlight.ExpiredLockElectsTwo`). Expiry can do
  so exactly when some elected call has held its lock for the lock's whole lifetime
  (`LockLifetime.ExclusionCanBreakExactly`). The
  docstring's "at most one caller runs the loader" holds for elected callers only: a waiter whose time is up loads
  beside the elected call (`SingleFlight.OneLoaderIsKeptExactly`, `SingleFlight.TimedOutWaiterLoadsToo`). From the
  start it holds in unspoiled runs in which no wait runs out (`SingleFlight.OneLoaderFromStart`); loaders that take no
  time do not ensure that (`SingleFlight.FastLoadersDoNotSuffice`). A late winner loads what is cached already
  (`SingleFlight.LoadIsRedundantExactly`, `SingleFlight.LateWinnerLoadsAgain`).
- A further input can lower the score, exactly when it carries weight, lies below the mean and the penalties leave room
  (`Risk.GainingInputLowersScoreExactly`): a slightly falling barometer turns HIGH into MODERATE, and a refusal into
  clearance with caution (`SafetyGate.SlightFallCanClear`). Losing an input can lower it as well, while the sea stays
  measured or stays a word exactly when what remains averages below that input's own share and the penalties leave room
  (`SafetyGate.LosingInputLowersGateScoreExactly`); a word in place of the last reading lowers it exactly when its top
  outweighs the mean by less than that reading did (`SafetyGate.WordForWaveLowersGateScoreExactly`,
  `SafetyGate.WordForSwellLowersGateScoreExactly`). The verdict improves by a loss exactly when the input is not the
  wind, nothing else obstructs, the sea state is still measured or a bulletin word stands in for it, and the new score
  falls through the boundary of refusal or, with the sea still measured, of caution
  (`SafetyGate.LosingInputImprovesExactly`). With the default thresholds, losing a rough wave reading beside a calm swell
  turns a refusal into a clearance (`SafetyGate.LosingWaveReadingCanClear`), and a calm word in place of the last sea
  reading turns one into clearance with caution, whatever share that reading had (`SafetyGate.CalmWordForLostSwell`,
  `SafetyGate.CalmWordForLostWave`).
- The open-ended sea-state code is represented by 14 m; over the trips the gate scores from such a word, that is
  pessimistic exactly when waves carry no weight or the wave band is full at 14 m
  (`SafetyGate.OpenEndIsCoveredExactly`). With a wave band of 14 to 20 m, "phenomenal" allows with caution a trip that
  20 m of sea refuses (`SafetyGate.OpenEndCanFallShort`).
- A NaN that comes first sticks in a window's maximum (`SafeWindow.FoldMaxIsWorst`,
  `SafeWindow.LeadingNaNHidesTheWaves`). Window flags speak for their windows exactly for warnings that do not end
  before they start (`SafeWindow.FlagsSpeakExactlyForWellFormed`): for every reversed warning there is a forecast whose
  window it meets without raising the flag (`SafeWindow.ReversedWarningMissesEveryStep`).
- The health page and the sweep disagree once a cadence has been relaxed (`DatasetHealth.ShownIsSweptExactly`,
  `DatasetHealth.RelaxedCadenceSplitsTheViews`).
- A rejected record blocks every later copy with its key (`Ingestion.NoticesAreExactly`,
  `Ingestion.RejectedCopyBlocksTheGoodOne`). A status change is announced exactly when no earlier ingest had turned the
  dataset to that status under the same processing time (`Ingestion.StatusChangeIsAnnouncedExactly`); failures do not
  move that time, so a second failure after a source error goes unannounced (`Ingestion.SecondFailureGoesUnannounced`).
- When one wave-model node appears twice for a time with different heights, the rougher one can go unreported
  (`WaveWatch.ConservativeExactly`, `WaveWatch.RepeatedNodeCanHideTheRoughSea`).

## Model

| member | source | states |
|---|---|---|
| `WorkQueue.SortIsPermutation` | src/marine_data_engine/messaging/queue.py:95-100 | Sorting the pending list keeps exactly its messages. |
| `WorkQueue.SortSorts` | src/marine_data_engine/messaging/queue.py:95-100 | Afterwards no message stands behind one that precedes it by rank, readiness time and enqueue time. |
| `WorkQueue.SortIsStable` | src/marine_data_engine/messaging/queue.py:95-100 | Messages that tie keep their relative order. |
| `WorkQueue.NextReadyIsBest` | src/marine_data_engine/messaging/queue.py:102-109 | A polled message is pending, ready and minimal among the ready ones; nothing is returned exactly when nothing is ready, so a backed-off urgent message never blocks a ready lesser one. |
| `WorkQueue.MostUrgentIsPolled` | src/marine_data_engine/messaging/queue.py:95-109 | A polled message is pending and ready, no ready message is of a class nearer to critical alerts, and among the ready ones of its class none became ready earlier, nor was enqueued earlier when both became ready together. |
| `WorkQueue.BeforeInPlainTerms` | src/marine_data_engine/messaging/subjects.py:26-35 | The draining order, by position in the published list of the five classes, then readiness, then enqueue time. |
| `WorkQueue.NackInPlainTerms` | src/marine_data_engine/messaging/queue.py:116-136 | A failure on a pending message counts the attempt and notes the error; at the limit the message moves to the dead letters, otherwise it is delayed in place. |
| `WorkQueue.RemovalIsExact` | src/marine_data_engine/messaging/queue.py:111-136 | In a conserving queue, removal by value equality removes the intended message and no other. |
| `WorkQueue.NackConservesExactly` | src/marine_data_engine/messaging/queue.py:116-136 | A failure reported on a message, which if pending is the pending object, keeps conservation if and only if it is still pending or has attempts left; otherwise it is dead-lettered a second time. |
| `WorkQueue.NackOfStrayConservesExactly` | src/marine_data_engine/messaging/queue.py:116-136 | A failure reported on an object that is not itself pending keeps conservation if and only if it has attempts left, or equals a pending message once its attempt is counted, which the source does before it searches the list. |
| `WorkQueue.FailureAfterAckIsBookedTwice` | src/marine_data_engine/messaging/queue.py:111-129 | A run that publishes, acknowledges and then fails a one-attempt message books it as acknowledged and as dead. |
| `WorkQueue.EveryRunConserves` | src/marine_data_engine/messaging/queue.py:72-136 | Over every legal run each admitted key is in exactly one of pending, acknowledged and dead-lettered; attempts stay below the limit while pending and equal it when dead; and the number of acknowledgements and failures is bounded by the attempts admitted. |
| `WorkQueue.KeysAreAdmittedOnce` | src/marine_data_engine/messaging/queue.py:81-83 | Over every run, legal or not, a key is admitted at most once, even after its message has left. |
| `WorkQueue.StepSpendsAttempts` | src/marine_data_engine/messaging/queue.py:111-136 | Every acknowledgement and failure strictly lowers the sum of remaining attempts; only an admission raises it. |
| `WorkQueue.BackoffCeiling` | src/marine_data_engine/messaging/subjects.py:54-68 | The delay ceiling lies between zero and the maximum, never falls with the attempt number, and doubles until capped. |
| `WorkQueue.BackoffInPlainTerms` | src/marine_data_engine/messaging/subjects.py:54-68 | The first retry waits at most the base delay, the second twice and the third four times that, as far as the maximum. |
| `WorkQueue.BackoffDelay` | src/marine_data_engine/messaging/subjects.py:54-68 | The jittered delay lies between zero and the ceiling of its attempt. |
| `WorkQueue.SortMessages` | src/marine_data_engine/messaging/queue.py:95-100 | The object-level insertion sort permutes the same objects into the order of the value-level stable sort. |
| `WorkQueue.FindReady` | src/marine_data_engine/messaging/queue.py:102-109 | Returns the first ready message object of a list, or none when none is ready. |
| `WorkQueue.InMemoryQueue.PublishMessage` | src/marine_data_engine/messaging/queue.py:72-92 | Admits a fresh message at the end exactly when its key was never seen; conservation and the rest of the queue stay as they were. |
| `WorkQueue.InMemoryQueue.SortPending` | src/marine_data_engine/messaging/queue.py:95-100 | The in-place sort is a permutation of the same objects and the stable sort of their values. |
| `WorkQueue.InMemoryQueue.PollReady` | src/marine_data_engine/messaging/queue.py:102-109 | Sorts, then returns a pending object that is ready; no ready message is of a more urgent class, nor earlier within its class. |
| `WorkQueue.InMemoryQueue.Acknowledge` | src/marine_data_engine/messaging/queue.py:111-114 | Removes exactly the acknowledged message, books it as acknowledged, and ignores anything not pending. |
| `WorkQueue.InMemoryQueue.ReportFailure` | src/marine_data_engine/messaging/queue.py:116-136 | For any message object: counts the attempt, dead-letters on the last one, otherwise sets not_before into [now, now + min(maximum, base * 2^(k-1))]. On a pending object this is the specified failure and keeps conservation; on any other object only a pending message equal to the counted one is removed. |
| `SingleFlight.MachineFollowsTheProgram` | src/marine_data_engine/cache.py:130-172 | Every step of the shared machine moves one call along its own program and leaves the other calls alone. |
| `SingleFlight.ExclusionIsKeptExactly` | src/marine_data_engine/cache.py:109-127 | From an exclusive state a step keeps "one elected call per key, and the lock exists exactly while there is one" if and only if it is not a lock expiry during a hold and not a misleading lock operation. |
| `SingleFlight.SingleFlightHolds` | src/marine_data_engine/cache.py:109-152 | Over every run without those events, for any number of calls, at most one call per key is elected and its lock exists exactly then, raising loaders included. |
| `SingleFlight.SingleFlightFromStart` | src/marine_data_engine/cache.py:109-152 | In particular in every such run from the start, with no call and an empty store. |
| `SingleFlight.WaitersNeverTouchTheLock` | src/marine_data_engine/cache.py:154-172 | A call that waits or has timed out never changes a lock and never enters the election. |
| `SingleFlight.ExpiredLockElectsTwo` | src/marine_data_engine/cache.py:109-127 | Without the expiry hypothesis the claim is false: a run from the start with two elected calls for one key. |
| `LockLifetime.ExclusionCanBreakExactly` | src/marine_data_engine/cache.py:45-127 | With locks that live for a fixed time from the request that set them, and lock operations that do not mislead, some step can break exclusion if and only if some elected call has held its lock for the whole lifetime. |
| `LockLifetime.BriefHoldsKeepExclusion` | src/marine_data_engine/cache.py:45-152 | Every run of the timed machine in which load, store and release fit into a lock's lifetime is unspoiled and ends exclusive. |
| `LockLifetime.BriefHoldsFromStart` | src/marine_data_engine/cache.py:45-152 | In particular every such run from the start. |
| `SingleFlight.OneLoaderIsKeptExactly` | src/marine_data_engine/cache.py:143-172 | At most one call per key at its loader, elected or not, is kept by a step if and only if the step does not turn a call to its loader (wait run out, or lock not refused) while another call of the key is at its own. |
| `SingleFlight.TimedOutWaiterLoadsToo` | src/marine_data_engine/cache.py:166-172 | A run from the start, with nothing spoiled, in which a timed-out waiter loads beside the elected call. |
| `SingleFlight.OneLoaderFromStart` | src/marine_data_engine/cache.py:130-172 | In every run from the start that is not spoiled and in which no wait runs out, at most one call per key is at its loader. |
| `SingleFlight.FastLoadersDoNotSuffice` | src/marine_data_engine/cache.py:143-172 | A run from the start, with nothing spoiled and no time passing while any loader runs, in which a napping waiter still loads beside an elected call: the first loader had raised and a third call was elected as the wait ran out. |
| `SingleFlight.LoadIsRedundantExactly` | src/marine_data_engine/cache.py:143-172 | A call turns to its loader with its document cached if and only if its wait runs out, or its lock is not refused, while the document is cached: there is no second look. |
| `SingleFlight.LateWinnerLoadsAgain` | src/marine_data_engine/cache.py:143-152 | A run from the start in which a call wins the lock and loads after another call stored the document. |
| `SingleFlight.CallsKeepToTheScript` | src/marine_data_engine/cache.py:87-172 | In every run, under any faults, what a call has said to the store is exactly the script of its path, request by request, and its loader has given exactly what its phase says. |
| `CallHistory.FirstReadDecides` | src/marine_data_engine/cache.py:136-142 | In every run, a call whose first read goes through while its document is stored returns that document, counts a hit and runs no loader; any other first read counts a miss, and the call does not end as a first hit. |
| `CallHistory.EachWakeDecides` | src/marine_data_engine/cache.py:157-165 | The same for each later read of a waiting call, which otherwise goes on waiting. |
| `CallHistory.HitsExactly` | src/marine_data_engine/cache.py:136-165 | A call ends as a first hit if and only if its first read finds its document, and as a later hit if and only if a later read does; it returns what was stored then and runs no loader. |
| `CallHistory.StoredDocumentsAreNotLoaded` | src/marine_data_engine/cache.py:130-165 | With a client and a read that goes through, a call whose document is stored at that moment runs no loader. |
| `CallHistory.AcquireDecides` | src/marine_data_engine/cache.py:109-143 | A call is refused if and only if there is a client, its request for the lock went through and the lock was held; then it ends as a later hit or timed out, otherwise as elected. |
| `CallHistory.NoClientMeansEveryCallLoads` | src/marine_data_engine/cache.py:87-127 | Without a client every call that ends has run its own loader exactly once and has said nothing to the store. |
| `CallHistory.StoreDecides` | src/marine_data_engine/cache.py:101-107 | A loaded document is stored under the call's key if and only if there is a client and the request is not lost before its effect. |
| `CallHistory.CountersInPlainTerms` | src/marine_data_engine/cache.py:136-168 | Which step moves which counter, by one each, in terms of what the store holds. |
| `CallHistory.GivingUpTakesTheWholeWait` | src/marine_data_engine/cache.py:154-168 | A call that gives up has waited its whole limit since it set its deadline. |
| `CallHistory.NapsLastOneInterval` | src/marine_data_engine/cache.py:155-158 | A later read comes at least one poll interval after the call went to sleep. |
| `SingleFlight.LockIsGivenBackOnce` | src/marine_data_engine/cache.py:143-152 | An elected call deletes the lock exactly once, as its last request, whether its loader raised or not; other calls never do. |
| `SingleFlight.ProvenanceHolds` | src/marine_data_engine/cache.py:130-172 | Under any faults and expiry, every stored or returned document was produced by a loader for that key, and a call raises only if its own loader raised. |
| `SingleFlight.ProvenanceFromStart` | src/marine_data_engine/cache.py:130-172 | In particular in every run from the start. |
| `SingleFlight.BalanceHolds` | src/marine_data_engine/cache.py:130-172 | In every run the counters, incremented where the program increments them, equal the sums of what each call's phase says it has contributed. |
| `SingleFlight.BooksCloseAtQuiescence` | src/marine_data_engine/cache.py:130-172 | Once every call has ended: loader runs = misses - waits + degraded fetches, and calls = hits + loader runs. |
| `SingleFlight.OwnActionsDecrease` | src/marine_data_engine/cache.py:130-172 | Each action of a call strictly lowers the number of actions it may still take. |
| `SingleFlight.EveryCallEnds` | src/marine_data_engine/cache.py:130-172 | In every run the calls take at most a fixed number of actions each, whatever the store does. |
| `SingleFlight.NoCallIsStuck` | src/marine_data_engine/cache.py:154-165 | A call that has not ended can act now, or after the end of its nap. |
| `SingleFlight.PollsIsCeiling` | src/marine_data_engine/cache.py:155-159 | The number of polls is the wait limit over the poll interval, rounded up. |
| `DocumentCache.BulletinCache.FetchElected` | src/marine_data_engine/cache.py:144-152 | The elected section leads from winning to the end of the call by steps of the machine: load, store, and release also after a raise, each with exactly the step's effect on store, records and counters. |
| `DocumentCache.BulletinCache.FetchDegraded` | src/marine_data_engine/cache.py:167-172 | The timed-out fetch loads and stores by steps of the machine, without touching the lock. |
| `DocumentCache.BulletinCache.AwaitDocument` | src/marine_data_engine/cache.py:154-166 | The polling loop ends, by steps of the machine, with a document or with the wait run out. |
| `DocumentCache.BulletinCache.GetOrFetch` | src/marine_data_engine/cache.py:130-172 | A whole call is a run of the shared machine, with any steps of other calls and the store in between: final store, clock, counters and loader runs are those of the run, and its requests are exactly the script of its path. It ends as a hit if and only if one of its reads finds the document stored, then returns that document and runs no loader; without a client it always loads. |
| `DocumentCache.BulletinCache.Get` | src/marine_data_engine/cache.py:87-99 | One GET goes out when there is a client; errors and a missing client look like an absent document. |
| `DocumentCache.BulletinCache.Set` | src/marine_data_engine/cache.py:101-107 | One SET goes out when there is a client; an error is swallowed, whether or not the document was stored. |
| `DocumentCache.BulletinCache.TryAcquire` | src/marine_data_engine/cache.py:109-119 | One SET NX goes out when there is a client; the election is lost exactly when it went through on a held lock. |
| `DocumentCache.BulletinCache.Release` | src/marine_data_engine/cache.py:121-127 | One DELETE of the lock goes out when there is a client, unconditionally. |
| `DocumentCache.BulletinCache.Load` | src/marine_data_engine/cache.py:145-152 | The loader runs once, elected or not; its document or its error decides the next phase. |
| `DocumentCache.BulletinCache.Look` | src/marine_data_engine/cache.py:136-142 | The first read yields exactly what the store holds under the key when it goes through, and counts a hit or a miss. |
| `DocumentCache.BulletinCache.Stand` | src/marine_data_engine/cache.py:143-154 | Standing for election counts a wait exactly when it is lost. |
| `AlertBroker.DueIsOneStretch` | src/marine_data_engine/api/broker.py:22-35 | What a queue is due is one gapless stretch of the publication order, from min(replay, n) events before its subscription to its leave. |
| `AlertBroker.Broker.Publish` | src/marine_data_engine/api/broker.py:22-27 | Publishing keeps every queue, present or departed, at exactly what it is due; nobody joins or leaves by it. |
| `AlertBroker.Broker.Subscribe` | src/marine_data_engine/api/broker.py:29-35 | A new queue starts with the last min(replay, n) events. |
| `AlertBroker.Broker.Unsubscribe` | src/marine_data_engine/api/broker.py:37-39 | A queue leaves the fan-out with what it has; unknown queues are ignored. |
| `AlertBroker.Broker.Deliver` | src/marine_data_engine/api/broker.py:26-27 | Each queue of the snapshot receives the event once, whatever the iteration order. |
| `AlertBroker.Broker.FanOutIsExact` | src/marine_data_engine/api/broker.py:17-39 | In every reachable state a queue has received the replay, then each event published until it left, in order, each once. |
| `AlertBroker.SplitKeepsEventsAccounted` | src/marine_data_engine/api/broker.py:22-27 | With snapshot and delivery as separate steps, each due event is either received once or still in flight to its queue. |
| `AlertBroker.SplitDeliversExactlyOnce` | src/marine_data_engine/api/broker.py:22-39 | Over every interleaving, once nothing is in flight each queue holds each due event exactly once and no other. |
| `AlertBroker.SplitDeliversFromStart` | src/marine_data_engine/api/broker.py:22-39 | In particular over every interleaving that starts with no event published and nobody subscribed. |
| `AlertBroker.JoinInPlainTerms` | src/marine_data_engine/api/broker.py:29-35 | A newcomer gets the last min(replay, n) events before it joined, in order. |
| `AlertBroker.SplitStartsAtTheReplay` | src/marine_data_engine/api/broker.py:22-39 | Over every interleaving, what a subscriber is due begins min(replay, n) events before the moment it joined. |
| `AlertBroker.SplitEndsAtTheLeave` | src/marine_data_engine/api/broker.py:22-39 | And ends with the last event published before it left. |
| `AlertBroker.CountIsOfSnapshots` | src/marine_data_engine/api/broker.py:22-27 | Events are counted when they are published, and only then. |
| `AlertBroker.SplitLosesOrder` | src/marine_data_engine/api/broker.py:22-39 | The split form loses the order, and an event may arrive after the queue has left: a concrete run. |
| `Risk.AssessMarineRisk` | src/marine_data_engine/domain/risk.py:193-314 | The engine, with its loops, computes the specified score, level and factors for every input. |
| `Risk.FactorsArePresentInputs` | src/marine_data_engine/domain/risk.py:225-268 | The factors are exactly the present inputs, each once and in the fixed order, each with its value, its weight and the points its band fraction earns; a pressure trend counts only while it falls. |
| `Risk.WeightedMean` | src/marine_data_engine/domain/risk.py:270-275 | The accumulated quotient is the weighted mean, and zero when nothing carries weight. |
| `Risk.BandFraction` | src/marine_data_engine/domain/risk.py:164-176 | The fraction lies in [0, 1], is 0 exactly up to the lower bound of a proper band and 1 exactly from its upper bound. |
| `Risk.BandInPlainTerms` | src/marine_data_engine/domain/risk.py:164-176 | Between its bounds a band is linear; without a proper band it is a step at the upper bound. |
| `Risk.InverseBandInPlainTerms` | src/marine_data_engine/domain/risk.py:179-190 | The same for inputs that are worse the lower they are. |
| `Risk.LevelsInPlainTerms` | src/marine_data_engine/domain/risk.py:150-157 | The four levels meet at 25, 50 and 75. |
| `Risk.WarningPenaltyInPlainTerms` | src/marine_data_engine/domain/risk.py:30-38 | The warnings of a list cost 45, 30, 15, 7 and 15 points each, by severity. |
| `Risk.CyclonePenaltyInPlainTerms` | src/marine_data_engine/domain/risk.py:41-46 | 60, 40, 20 and 8 points within 100, 300, 500 and 800 km, nothing beyond or when unknown. |
| `Risk.DefaultsInPlainTerms` | src/marine_data_engine/domain/risk.py:96-147 | With the default thresholds: where each input starts to count and where it counts in full, and what it weighs. |
| `Risk.BaseInPlainTerms` | src/marine_data_engine/domain/risk.py:225-275 | The base is the quotient of two sums over the present inputs, each in its own band with its own weight. |
| `Risk.PointsInPlainTerms` | src/marine_data_engine/domain/risk.py:225-268 | What one input earns: a hundred times its band fraction times its weight, when it is present; a trend only while it falls. |
| `Risk.ScoreInPlainTerms` | src/marine_data_engine/domain/risk.py:278-298 | With non-negative weights the score is base plus penalties, cut off at 100. |
| `Risk.BaseInClosedForm` | src/marine_data_engine/domain/risk.py:270-275 | The list-driven mean equals a quotient of two plain sums over the inputs that are present. |
| `Risk.BaseIsBounded` | src/marine_data_engine/domain/risk.py:270-299 | Base and score lie in [0, 100]; the score is never below the base and equals it without hazards. |
| `Risk.RiskIsMonotone` | src/marine_data_engine/domain/risk.py:193-299 | With the same inputs present, worsening any of them, adding warnings or moving the cyclone closer never lowers score or level. |
| `Risk.NewFactorKeepsMean` | src/marine_data_engine/domain/risk.py:270-273 | A further factor does not lower the mean if and only if its own share is at least the mean. |
| `Risk.FallingTrendKeepsBase` | src/marine_data_engine/domain/risk.py:260-273 | A pressure trend that starts to fall keeps the base from dropping if and only if its scaled fraction is at least the base. |
| `Risk.LosingInputKeepsBaseExactly` | src/marine_data_engine/domain/risk.py:225-273 | Losing any one input does not lower the base if and only if the input carries no weight or the base of the rest is at least the input's scaled fraction. |
| `Risk.LosingInputLowersScoreExactly` | src/marine_data_engine/domain/risk.py:270-298 | Losing an input lowers the score if and only if it carries weight, the base of the rest is below its scaled fraction, and the penalties leave room below 100. |
| `Risk.GainingInputLowersScoreExactly` | src/marine_data_engine/domain/risk.py:225-298 | An input that comes to take part, whichever it is, lowers the score if and only if it carries weight, its scaled fraction is below the base that was there, and the penalties leave the new base room below 100. |
| `Risk.HigherWaveRaisesScoreExactly` | src/marine_data_engine/domain/risk.py:225-298 | Of two wave heights one scores strictly higher if and only if waves carry weight, it lies deeper in the wave band, and the score of the other has room. |
| `Risk.ReplacingInputLowersScoreExactly` | src/marine_data_engine/domain/risk.py:225-298 | Replacing any input by any other, the rest kept, lowers the score if and only if the new one's weighted distance above the old base is smaller than the old one's (or nothing weighs any more and the base was positive), and there is room below 100. |
| `Risk.SlightFallCanLowerRisk` | src/marine_data_engine/domain/risk.py:260-299 | Monotonicity needs equal presence: a slightly falling barometer turns a HIGH assessment into MODERATE. |
| `Risk.WarningPenaltyMonotone` | src/marine_data_engine/domain/risk.py:280-284 | More warnings, in any order, never lower the total penalty. |
| `SeaState.ParseSeaStateCategory` | src/marine_data_engine/domain/sea_state.py:156-200 | The parser loop returns the specified band for a term, and nothing for empty or unverified vocabulary. |
| `SeaState.HullIsTight` | src/marine_data_engine/domain/sea_state.py:188-200 | The band of a span covers the band of every code in it, reaches no further at either end, and lists its codes ascending without repeats. |
| `SeaState.CollectCodes` | src/marine_data_engine/domain/sea_state.py:176-191 | The loop accepts a term exactly when every part is verified vocabulary, and then yields the hull of its codes. |
| `SeaState.EveryTermIsAccepted` | src/marine_data_engine/domain/sea_state.py:63-200 | Every verified term, in capitals or not, parses, to exactly the published bounds of its code. |
| `SeaState.EverySpanIsAccepted` | src/marine_data_engine/domain/sea_state.py:83-200 | Any number of verified terms, of one word or two, with any one of the five separators between them and in capitals or not: the parser gets back exactly those terms, accepts them, and their band spans the published bounds of all of them and no more. |
| `SeaState.EveryPairIsAccepted` | src/marine_data_engine/domain/sea_state.py:83-200 | A span of two verified terms means the bounds from the lower to the higher code. |
| `SeaState.SplitOfJoin` | src/marine_data_engine/domain/sea_state.py:143-153 | For the verified vocabulary and each separator, splitting undoes joining. |
| `SeaState.OnlyOneSeparator` | src/marine_data_engine/domain/sea_state.py:83-89 | Terms joined by one separator contain no occurrence of another, and none of their own inside a term. |
| `SeaState.ModerateToRough` | src/marine_data_engine/domain/sea_state.py:156-200 | "MODERATE TO ROUGH" means 1.25 m to 4.0 m. |
| `SeaState.RoughToVeryRough` | src/marine_data_engine/domain/sea_state.py:156-200 | "rough to very rough" means 2.5 m to 6.0 m. |
| `SeaState.SingleTermsInPlainTerms` | src/marine_data_engine/domain/sea_state.py:45-79 | Each one-word term and its band in metres; only "phenomenal" is open-ended. |
| `SeaState.DoubleTermsInPlainTerms` | src/marine_data_engine/domain/sea_state.py:45-79 | Each two-word term and its band in metres. |
| `SeaState.OtherTermsAreRefused` | src/marine_data_engine/domain/sea_state.py:156-185 | Any other term without a separator is refused. |
| `SeaState.DressedTermMeansTheSame` | src/marine_data_engine/domain/sea_state.py:137-140 | White space around a term or span, and punctuation behind it, change nothing. |
| `Text.GapsAreOneBlank` | src/marine_data_engine/domain/sea_state.py:167 | However much white space stands inside a text, it counts as one blank. |
| `Text.StripInPlainTerms` | src/marine_data_engine/domain/sea_state.py:137-140 | Stripping takes the white space off both ends of a text, and nothing else. |
| `Text.SplitIsLossless` | src/marine_data_engine/domain/sea_state.py:143-153 | Splitting at a separator loses nothing: joining the parts gives the text back. |
| `Text.SplitHasNoSeparator` | src/marine_data_engine/domain/sea_state.py:143-153 | No part of a split contains the separator. |
| `SafetyGate.EvaluateSafetyGate` | src/marine_data_engine/domain/safety_gate.py:103-284 | The gate, step by step, reaches the specified status, sufficiency flag, reasons, missing inputs and band; an active restricted, prohibited, border or EEZ zone, or one of unresolved status, refuses with its reason. |
| `SafetyGate.Deduplicate` | src/marine_data_engine/domain/safety_gate.py:272-274 | De-duplication keeps the same set of reasons, each once, in first-occurrence order. |
| `SafetyGate.InspectZones` | src/marine_data_engine/domain/safety_gate.py:194-205 | The loop finds whether any zone has an unresolved status, and whether any active zone is restricted, prohibited, border or EEZ. |
| `SafetyGate.ActiveZoneRefuses` | src/marine_data_engine/domain/safety_gate.py:194-270 | A zone that is active and called restricted, prohibited, border or EEZ, by its type or else its kind, refuses the trip with the restricted-zone reason. |
| `SafetyGate.UnresolvedZoneRefuses` | src/marine_data_engine/domain/safety_gate.py:194-205 | A zone whose status is empty, unknown or none makes the decision insufficient, with its reason. |
| `SafetyGate.HarmlessZonesDoNotMatter` | src/marine_data_engine/domain/safety_gate.py:194-270 | Zones that are neither change neither verdict nor reasons. |
| `SafetyGate.ReasonsInPlainTerms` | src/marine_data_engine/domain/safety_gate.py:165-236 | When each of the other nine reasons is given. |
| `SafetyGate.EvidenceInPlainTerms` | src/marine_data_engine/domain/safety_gate.py:165-209 | Which inputs are named as missing, in their order, and when the evidence is insufficient. |
| `SafetyGate.ReasonsKeepTheirOrder` | src/marine_data_engine/domain/safety_gate.py:140-236 | Reasons are listed in one fixed order. |
| `SafetyGate.ClearedExactly` | src/marine_data_engine/domain/safety_gate.py:140-270 | A trip is CLEARED if and only if wind and a numeric sea state are present, required tide is present, the route is complete, there is no warning, unresolved or blocking zone, and the risk is LOW. |
| `SafetyGate.RefusedExactlyWithReason` | src/marine_data_engine/domain/safety_gate.py:140-274 | A trip is NOT_CLEARED if and only if some reason other than the informational category note applies. |
| `SafetyGate.CautionExactly` | src/marine_data_engine/domain/safety_gate.py:238-270 | A trip is CLEARED_WITH_CAUTION if and only if it is not refused and its level is MODERATE or its sea state is only a word. |
| `SafetyGate.VerdictInFull` | src/marine_data_engine/domain/safety_gate.py:140-270 | The whole decision table: refused if and only if something obstructs, the sea state is unknown or the score is at least 50; otherwise caution if and only if the score is at least 25 or the sea state is only a word. |
| `SafetyGate.VerdictIsAntitone` | src/marine_data_engine/domain/safety_gate.py:140-270 | With presence fixed, worsening hazards, adding warnings or zones, or losing side evidence never improves the verdict or lowers the score. |
| `SafetyGate.LosingWaveReadingCanClear` | src/marine_data_engine/domain/safety_gate.py:211-270 | Presence must be fixed: with the default thresholds, losing a rough wave reading beside a calm swell turns a refusal into a clearance. |
| `SafetyGate.LosingInputImprovesExactly` | src/marine_data_engine/domain/safety_gate.py:149-270 | For every trip and every input lost: the verdict improves if and only if the input is not the wind, nothing else obstructs, the sea state is still measured or a word now stands in for it, and the score falls through 50 or, with the sea still measured, through 25; and where the sea stays measured, or stays a word, when that score falls. |
| `SafetyGate.LosingInputLowersGateScoreExactly` | src/marine_data_engine/domain/safety_gate.py:211-228 | While the sea stays measured, or stays a word, losing an input lowers the gate's score if and only if the input carries weight, what remains averages below its own share, and the penalties leave room. |
| `SafetyGate.WordForWaveLowersGateScoreExactly` | src/marine_data_engine/domain/safety_gate.py:149-228 | When a word takes the place of a wave height that was the only sea reading, the score falls if and only if waves carry weight, the top of the word's band lies lower in the wave band than the lost height, and the penalties leave room. |
| `SafetyGate.WordForSwellLowersGateScoreExactly` | src/marine_data_engine/domain/safety_gate.py:149-228 | When a word takes the place of a swell that was the only sea reading, the score falls if and only if the top of the word's band, as a wave height, has a smaller weighted distance above the old mean than the swell had (or nothing weighs any more and the mean was positive), and the penalties leave room. |
| `SafetyGate.CalmWordForLostSwell` | src/marine_data_engine/domain/safety_gate.py:149-270 | A concrete refused trip that is allowed with caution once its swell reading is lost and "slight" stands in. |
| `SafetyGate.CalmWordForLostWave` | src/marine_data_engine/domain/safety_gate.py:149-270 | The same for a lost 10 m wave in a light wind, where the score drops to zero. |
| `SafetyGate.GainingInputLowersGateScoreExactly` | src/marine_data_engine/domain/safety_gate.py:211-228 | While the sea stays measured, or stays a word, a further input lowers the gate's score if and only if it carries weight, lies below the mean that was there, and the penalties leave room. |
| `SafetyGate.GainingInputImprovesExactly` | src/marine_data_engine/domain/safety_gate.py:149-270 | For every trip and every input gained: the verdict improves if and only if nothing else obstructs and either the trip could not be scored before and scores below 50 now, or the score falls through a boundary, or a sea that was only a word is now measured and scores below 25. |
| `SafetyGate.SlightFallCanClear` | src/marine_data_engine/domain/safety_gate.py:211-270 | A concrete refused trip that is allowed with caution once its barometer falls slightly. |
| `SafetyGate.CategoryIsPessimistic` | src/marine_data_engine/domain/safety_gate.py:149-163 | For every accepted term and every height in its band, the verdict from the term is never better and its score never lower than from the measured height, all else equal and no swell. |
| `SafetyGate.OpenEndedCategoryIsPessimistic` | src/marine_data_engine/domain/safety_gate.py:149-163 | The same for heights above the 14 m stand-in of the open-ended code, where waves carry no weight or 14 m already fills the wave band. |
| `SafetyGate.OpenEndIsCoveredExactly` | src/marine_data_engine/domain/safety_gate.py:149-228 | Over all trips that the gate scores from an open-ended word, the word's score covers every sea from 14 m up if and only if waves carry no weight or the wave band is full at 14 m. |
| `SafetyGate.OpenEndFallsShortExactly` | src/marine_data_engine/domain/safety_gate.py:149-228 | Trip by trip, a given height scores above the open-ended word if and only if waves carry weight, that height lies deeper in the wave band than 14 m, and the word's own score has room. |
| `SafetyGate.OpenEndCanFallShort` | src/marine_data_engine/domain/safety_gate.py:149-270 | With a wave band of 14 to 20 m and no wind, "phenomenal" is allowed with caution while 20 m of sea is refused. |
| `SafeWindow.ComputeSafeWindows` | src/marine_data_engine/domain/safe_window.py:68-157 | Scoring and in-place merging give the specified windows; series of different lengths are refused. |
| `SafeWindow.StepInPlainTerms` | src/marine_data_engine/domain/safe_window.py:97-136 | What each step says: its readings, when it is warned, its score, and its class by the cut points 25 and 50. |
| `SafeWindow.WindowsCoverExactly` | src/marine_data_engine/domain/safe_window.py:97-157 | An instant lies in some window if and only if it is at most one interval after some forecast time. |
| `SafeWindow.ConsecutiveTimesShareAWindowExactly` | src/marine_data_engine/domain/safe_window.py:97-157 | Two consecutive times stand in one window if and only if they are at most one interval apart and agree in class. |
| `SafeWindow.ClassInPlainTerms` | src/marine_data_engine/domain/safe_window.py:49-55 | A window is FAVOURABLE up to a score of 25, HIGH_RISK above 50, and a flagged one scores at least 75. |
| `SafeWindow.WarnedExactlyWhenInForce` | src/marine_data_engine/domain/safe_window.py:57-65 | With warnings that do not end before they start, a window is flagged if and only if some warning is in force at some instant of it. |
| `SafeWindow.MergeSteps` | src/marine_data_engine/domain/safe_window.py:132-157 | Each window returned is one of the step objects, stretched over its run, despite the in-place mutation. |
| `SafeWindow.WarningOverlaps` | src/marine_data_engine/domain/safe_window.py:57-65 | The loop answers whether some warning touches the closed span. |
| `SafeWindow.RunsPartition` | src/marine_data_engine/domain/safe_window.py:132-157 | The runs behind the windows cover all steps in order, are never empty, and neighbours do not join. |
| `SafeWindow.MergeIsRunDecomposition` | src/marine_data_engine/domain/safe_window.py:132-157 | The windows are exactly the summaries of those maximal runs, in order. |
| `SafeWindow.SummaryIsWorst` | src/marine_data_engine/domain/safe_window.py:139-154 | A window carries the maximum score of its steps and the disjunction of their warning flags. |
| `SafeWindow.SummaryFoldsReadings` | src/marine_data_engine/domain/safe_window.py:141-149 | Wave and wind of a window are the folds of its steps' readings. |
| `SafeWindow.FoldMaxIsWorst` | src/marine_data_engine/domain/safe_window.py:160-162 | Such a fold is the maximum of the present numbers if and only if the first present value is not a NaN. |
| `SafeWindow.LeadingNaNHidesTheWaves` | src/marine_data_engine/domain/safe_window.py:160-162 | A NaN before a 6 m wave gives NaN, behind it 6 m. |
| `SafeWindow.SpanTouchesExactlyWithAStep` | src/marine_data_engine/domain/safe_window.py:57-65 | A well-formed warning meets a run's closed span if and only if it meets one of its steps. |
| `SafeWindow.WarningFlagSpeaksForTheWindow` | src/marine_data_engine/domain/safe_window.py:97-157 | The warning flag of a window equals the overlap test on the whole window. |
| `SafeWindow.SafeWindowsAreSafeThroughout` | src/marine_data_engine/domain/safe_window.py:97-157 | No warning is in force at any instant of a FAVOURABLE or MODERATE window. |
| `SafeWindow.ReclassifyingGivesTheClass` | src/marine_data_engine/domain/safe_window.py:49-54 | Re-classifying a merged score gives the class of its window back. |
| `SafeWindow.NeighboursAreSeparate` | src/marine_data_engine/domain/safe_window.py:132-157 | Neighbouring windows overlap at most in an endpoint, and differ in class or leave a gap. |
| `SafeWindow.ReversedWarningMissesEveryStep` | src/marine_data_engine/domain/safe_window.py:57-157 | For every warning that ends before it starts: a forecast whose only window it meets, FAVOURABLE and unflagged. |
| `SafeWindow.WellFormedExactlySpeaksForRuns` | src/marine_data_engine/domain/safe_window.py:57-65 | A warning meets the span of every run of steps exactly when it meets a step of it, if and only if it does not end before it starts. |
| `SafeWindow.FlagsSpeakExactlyForWellFormed` | src/marine_data_engine/domain/safe_window.py:97-157 | Over all forecasts with that warning, every window's flag is the overlap test on the window, if and only if the warning does not end before it starts. |
| `DatasetHealth.ScoreDecaysToTheThreshold` | src/marine_data_engine/domain/freshness.py:66-77 | The score lies in [0, 1], is 1 exactly up to the reference time and 0 exactly from the threshold on; staleness begins strictly beyond it. |
| `DatasetHealth.FreshnessInPlainTerms` | src/marine_data_engine/domain/freshness.py:51-87 | Age, threshold (cadence times multiplier), staleness beyond it, and a score that falls in proportion to the age. |
| `DatasetHealth.UnknownAgeOrCadence` | src/marine_data_engine/domain/freshness.py:53-76 | Without a reference data are stale and score 0; without a cadence they never age. |
| `DatasetHealth.CadenceInPlainTerms` | src/marine_data_engine/services/freshness.py:22-40 | A row's own multiplier counts unless it is missing or zero. |
| `DatasetHealth.FreshnessOnlyFades` | src/marine_data_engine/domain/freshness.py:51-87 | As the clock advances, staleness is never undone and the score never rises. |
| `DatasetHealth.CounterCountsFailures` | src/marine_data_engine/services/ingestion.py:319-453 | In every history the failure counter equals the number of counted failures that no successful ingest follows. |
| `DatasetHealth.LiveStatusIsVouched` | src/marine_data_engine/services/ingestion.py:364-378 | Healthy or stale implies no failures, a success time, and a last result of success or empty. |
| `DatasetHealth.SourceErrorsInPlainTerms` | src/marine_data_engine/services/ingestion.py:423-453 | Status, failure counter and failure time after a source error, for each state it may carry. |
| `DatasetHealth.IngestsInPlainTerms` | src/marine_data_engine/services/ingestion.py:319-378 | The same after an ingest, successful or failed. |
| `DatasetHealth.SweepOnlyTradesHealthyAndStale` | src/marine_data_engine/services/freshness.py:22-58 | A sweep changes only the status, only between healthy and stale, and settles on stale exactly when the data is stale. |
| `DatasetHealth.ShownIsSweptExactly` | src/marine_data_engine/services/queries.py:78-108 | The shown status equals the swept one if and only if it is not a stored stale that has become fresh. |
| `DatasetHealth.StoredStaleStaysStale` | src/marine_data_engine/services/freshness.py:22-58 | With fixed cadence and a forward clock, a stored stale is still stale at every later instant. |
| `DatasetHealth.ShownStatusAgreesWithSweep` | src/marine_data_engine/services/queries.py:78-108 | So in every such history the shown status equals what a sweep at that instant would store. |
| `DatasetHealth.RelaxedCadenceSplitsTheViews` | src/marine_data_engine/services/queries.py:78-108 | A relaxed cadence in between splits the two views: a concrete row. |
| `DatasetHealth.Dataset.RecordSuccess` | src/marine_data_engine/services/ingestion.py:364-378 | The closing updates of a successful ingest are one step of the status machine and stamp the processing time. |
| `DatasetHealth.Dataset.RecordIngestFailure` | src/marine_data_engine/services/ingestion.py:319-326 | The updates of a failed ingest are one step of the status machine and leave the processing time alone. |
| `DatasetHealth.Dataset.RecordSourceError` | src/marine_data_engine/services/ingestion.py:423-453 | The updates for a source error are one step of the status machine. |
| `DatasetHealth.EvaluateDatasetFreshness` | src/marine_data_engine/services/freshness.py:14-58 | The sweep loop applies the sweep step to every dataset and reports its freshness and new status. |
| `DatasetHealth.DataHealth` | src/marine_data_engine/services/queries.py:78-108 | The read-side loop reports the shown status and freshness of every dataset and writes nothing. |
| `Ingestion.FetchIsConserved` | src/marine_data_engine/services/ingestion.py:226-305 | Accepted + rejected + quarantined + skipped equals the record count of a fetch that does not raise. |
| `Ingestion.TallyIsExact` | src/marine_data_engine/services/ingestion.py:505-511 | Accepted, rejected and quarantined each count exactly the evaluated records of that disposition; skipped counts exactly the duplicates of keyed tables. |
| `Ingestion.FreshInPlainTerms` | src/marine_data_engine/services/ingestion.py:479-485 | A record is fresh if and only if no stored row and no earlier record of its table that leaves one has its key. |
| `Ingestion.EventsAreExactly` | src/marine_data_engine/services/ingestion.py:572-588 | The summary lists exactly the events of the fresh records that give one. |
| `Ingestion.AuditsAreExactly` | src/marine_data_engine/services/ingestion.py:487-503 | Audits and skipped records add up to the records taken, and each new audit is one of theirs. |
| `Ingestion.OrderInPlainTerms` | src/marine_data_engine/services/ingestion.py:228-305 | The order in which the eight lists are taken. |
| `Ingestion.HazardAlertsInPlainTerms` | src/marine_data_engine/services/ingestion.py:241-305 | Cyclones go in as extreme alerts, tsunamis as extreme ones when they were so and severe ones otherwise. |
| `Ingestion.NothingFollowsAFailure` | src/marine_data_engine/services/ingestion.py:228-345 | Once a record raises, no later one is looked at. |
| `Ingestion.RowsAreExactly` | src/marine_data_engine/services/ingestion.py:479-915 | A table holds exactly the keys it held and those of the records given; rejected stations and zones add none. |
| `Ingestion.RowsInPlainTerms` | src/marine_data_engine/services/ingestion.py:479-485 | Which records leave a row under a key: keyed tables by idempotency key, stations and zones by identifier unless rejected. |
| `Ingestion.NoticesAreExactly` | src/marine_data_engine/services/ingestion.py:572-588 | The queue learns exactly the notice keys of fresh records that were not rejected. |
| `Ingestion.NoticesKeepTheirLanes` | src/marine_data_engine/services/ingestion.py:572-588 | Every message admitted is the notice of one of the records, in that record's lane. |
| `Ingestion.NoticesInPlainTerms` | src/marine_data_engine/services/ingestion.py:106-112 | Which records are announced, under which key; and in the critical lane if and only if it is an alert of a cyclone, tsunami or storm surge, or severe or extreme. |
| `Ingestion.StatusKeysInPlainTerms` | src/marine_data_engine/services/ingestion.py:414-420 | The key of a dataset's status notice, spelled out. |
| `Ingestion.JobKeysInPlainTerms` | src/marine_data_engine/services/ingestion.py:335-395 | The keys of the notices of completed and failed runs, spelled out. |
| `Ingestion.HazardsAreCritical` | src/marine_data_engine/services/ingestion.py:241-305 | Notices of cyclones and tsunamis travel in the critical lane. |
| `Ingestion.RejectedCopyBlocksTheGoodOne` | src/marine_data_engine/services/ingestion.py:514-571 | A good copy of a record whose first copy was rejected is skipped and never announced: a concrete pair. |
| `Ingestion.NothingIsSkippedExactly` | src/marine_data_engine/services/ingestion.py:479-485 | Records of a keyed table are never skipped if and only if their keys are new and distinct. |
| `Ingestion.EveryReachableStoreIsSound` | src/marine_data_engine/services/ingestion.py:134-400 | In every store reachable from any seeded registry each table has one row per key, each payload one job, processing job and run, each location one asset, each queue key one admission, and each dataset row lies on a run of the status machine. |
| `Ingestion.ReachableDatasetsAreVouched` | src/marine_data_engine/services/ingestion.py:364-378 | Live statuses of all datasets, seeded or new, are vouched for by their last ingest. |
| `Ingestion.SuccessMakesKnown` | src/marine_data_engine/services/ingestion.py:134-400 | A successful ingest settles every record of the fetch and leaves its lineage and completion notice behind. |
| `Ingestion.KnownPersists` | src/marine_data_engine/services/ingestion.py:134-453 | No later ingest, failed ingest, source error or sweep undoes that. |
| `Ingestion.ReingestingAddsNothing` | src/marine_data_engine/services/ingestion.py:148-243 | Re-ingesting a known fetch adds no row, job, run or asset; the queue is untouched if and only if the status stays or its notice key was seen. |
| `Ingestion.IngestionIsIdempotent` | src/marine_data_engine/services/ingestion.py:134-420 | Ingest, any run, the same fetch again: nothing is added, and with the status unchanged the work queue is left alone. |
| `Ingestion.SecondFailureGoesUnannounced` | src/marine_data_engine/services/ingestion.py:402-420 | The notice key uses the last processing time, which failures do not move: a second failure after a source error is dropped as a duplicate. |
| `Ingestion.StatusNoticesExactly` | src/marine_data_engine/services/ingestion.py:402-420 | Over every run, the queue knows a dataset's status notice if and only if some ingest of the run turned the dataset to that status under that processing time. |
| `Ingestion.StatusChangeIsAnnouncedExactly` | src/marine_data_engine/services/ingestion.py:402-420 | In every run a status change by an ingest, failed or not, is announced if and only if no earlier ingest had turned the dataset to that status under the same processing time. |
| `IngestionService.Service.IngestRecord` | src/marine_data_engine/services/ingestion.py:514-915 | One record through the service changes rows, audits, tally and queue as specified, or is skipped, or raises. |
| `IngestionService.Service.IngestRecords` | src/marine_data_engine/services/ingestion.py:228-305 | The eight loops, in their order, stop at the first record that raises. |
| `IngestionService.Service.FindDataset` | src/marine_data_engine/services/ingestion.py:456-477 | An unknown dataset is registered as disabled, never run, expected every six hours; a known one is found. |
| `IngestionService.Service.TraceLineage` | src/marine_data_engine/services/ingestion.py:148-224 | Job, asset, processing job and run are reused when present and added when missing. |
| `IngestionService.Service.EmitDatasetUpdated` | src/marine_data_engine/services/ingestion.py:402-420 | A status change is offered to the queue, and only a change. |
| `IngestionService.Service.IngestFetch` | src/marine_data_engine/services/ingestion.py:134-400 | A whole ingest, over mutable rows, dataset objects and queue, is the specified ingest; new queue messages are exactly the admitted notices, in order and in their lanes. |
| `IngestionService.Service.RecordSourceError` | src/marine_data_engine/services/ingestion.py:423-453 | A source error registers the dataset if needed and is one step of its status machine. |
| `WaveWatch.RecordsFromSamples` | src/marine_data_engine/sources/incois_ww3.py:415-454 | The grouping, sorting and selection loops produce the specified report. |
| `WaveWatch.TimesAreOrdered` | src/marine_data_engine/sources/incois_ww3.py:415-421 | The reported times ascend strictly and are exactly those with a wet sample. |
| `WaveWatch.PickNearest` | src/marine_data_engine/sources/incois_ww3.py:423-428 | The first candidate at the smallest distance. |
| `WaveWatch.PickRoughest` | src/marine_data_engine/sources/incois_ww3.py:429 | The first candidate with the largest wave height. |
| `WaveWatch.NearestIsFirst` | src/marine_data_engine/sources/incois_ww3.py:423-428 | Among equally close samples the first is taken. |
| `WaveWatch.RoughestIsFirst` | src/marine_data_engine/sources/incois_ww3.py:429 | And among equally rough ones. |
| `WaveWatch.SelectionsInPlainTerms` | src/marine_data_engine/sources/incois_ww3.py:430-452 | What is reported for a time, and under which selection. |
| `WaveWatch.CollectNodeRecords` | src/marine_data_engine/sources/incois_ww3.py:457-569 | Every present variable in order, then wind when both components are present, then the larger swell partition. |
| `WaveWatch.NodeRecordsFacts` | src/marine_data_engine/sources/incois_ww3.py:457-569 | A node's records stand at it, repeat its values, include its wave height and never share a parameter. |
| `WaveWatch.NodeRecordsInPlainTerms` | src/marine_data_engine/sources/incois_ww3.py:457-569 | Exactly the records of one node with their values: the variables present, speed and direction of complete wind components, and the larger swell partition. |
| `WaveWatch.NodeRecordsInOrder` | src/marine_data_engine/sources/incois_ww3.py:457-569 | The order in which they are emitted. |
| `WaveWatch.ReportIsOrderedAndDistinct` | src/marine_data_engine/sources/incois_ww3.py:421-454 | Times ascend over the report, and no two forecasts share parameter, node and valid time. |
| `WaveWatch.NearestIsReported` | src/marine_data_engine/sources/incois_ww3.py:423-437 | For every time with a wet sample the closest wet node is in the report. |
| `WaveWatch.ConservativeExactly` | src/marine_data_engine/sources/incois_ww3.py:423-437 | The largest reported wave height of a time is the maximum over wet samples if and only if the nearest node does not give a lower height first and the maximum later. |
| `WaveWatch.AgreeingSamplesGiveConservativeReports` | src/marine_data_engine/sources/incois_ww3.py:423-437 | In particular when samples of one node and time agree. |
| `WaveWatch.RepeatedNodeCanHideTheRoughSea` | src/marine_data_engine/sources/incois_ww3.py:430-434 | Otherwise the rough sea can go unreported: a concrete pair of samples. |
| `WaveWatch.ReportIsIngestedWhole` | src/marine_data_engine/services/ingestion.py:841-855 | Ingesting a report never raises, and skips nothing if and only if the hash keeps the report's own keys apart and gives none that is stored. |
| `ProbeGrid.ProbeOffsets` | src/marine_data_engine/sources/incois_ww3.py:586-597 | The enumeration is exactly the square [-n, n] x [-n, n] ordered by ring and then lexicographically, has (2n+1)^2 entries and starts at (0, 0). |
| `ProbeGrid.ProbeIsExact` | src/marine_data_engine/sources/incois_ww3.py:586-597 | Any list of the square in that order visits each offset once, starts at the centre and has (2n+1)^2 entries. |
| `ProbeGrid.ProbingOrderIsUnique` | src/marine_data_engine/sources/incois_ww3.py:586-597 | There is only one such list. |
| `ProbeGrid.ProbeInPlainTerms` | src/marine_data_engine/sources/incois_ww3.py:586-597 | On coordinates: exactly the square, inner squares first, and within a ring by latitude, then longitude. |
| `Bulletin.ScanNodes` | src/marine_data_engine/sources/imd_marine_bulletin.py:321-347 | The mutable scan over area objects is the specified fold. |
| `Bulletin.ParseBlocks` | src/marine_data_engine/sources/imd_marine_bulletin.py:321-353 | A document is refused exactly when no node is a verified area name. |
| `Bulletin.NodesInPlainTerms` | src/marine_data_engine/sources/imd_marine_bulletin.py:321-347 | Capitals, surrounding white space and trailing colons do not matter: an area name opens a block, a label names its field, anything else is a value in single blanks. |
| `Bulletin.LabelsInPlainTerms` | src/marine_data_engine/sources/imd_marine_bulletin.py:83-97 | The thirteen labels and the fields they name. |
| `Bulletin.ScanMeetsIndexSpecification` | src/marine_data_engine/sources/imd_marine_bulletin.py:321-347 | One block per area token in order; each field is the first text directly behind its label within the block's stretch; the synoptic text is the first non-empty one anywhere. |
| `Bulletin.FirstNonEmptyInPlainTerms` | src/marine_data_engine/sources/imd_marine_bulletin.py:341-344 | The synoptic text is the first non-empty one, empty only when all are, and absent only when there is none. |
| `Bulletin.BlocksHoldFirstAnswers` | src/marine_data_engine/sources/imd_marine_bulletin.py:341-347 | The same, read off for one block and one field; the synoptic text is never stored in a block. |
| `Bulletin.BlocksAreLocal` | src/marine_data_engine/sources/imd_marine_bulletin.py:328-333 | Cutting a document at an area token cuts the blocks there: a block depends on its own stretch only. |
| `Bulletin.PreambleReachesNoBlock` | src/marine_data_engine/sources/imd_marine_bulletin.py:341-347 | Text before the first area reaches no block. |

## Left out

- HTTP, TLS, NATS JetStream (acknowledgement waits, durable consumers, its poll loop), Redis wire details, SQL,
  object storage, logging and metrics: replaced by maps, sets and arbitrary faults.
- Parsing of HTML, XML, JSON and CSV, regular expressions, and geometry: bulletins start from text nodes, wave data from
  samples, distances and wind conversion are arbitrary functions.
- Floating-point rounding, overflow and infinities: numbers are exact reals, and rounding of scores and distances is not
  modelled.
- Unicode: case folding and white space are those of ASCII.
- Naive timestamps, which the backend reads as UTC: instants are reals.
- Free text of notes, warnings and dominant drivers in risk and gate results, and the record metadata of forecasts.
- The `*_high` risk thresholds, which no computation of the backend reads.
- The message subject, and the payload of notices, which repeats the event as JSON.
- Queue depth queries, the read-only copy of the dead letters, and `invalidate` of the cache: the latter is the
  step that expires a stored document.
- Namespacing of cache keys: values and locks are separate maps by key.
- Atomicity of the cache counters: an increment is one step of its caller.
- WorkQueue.EveryRunConserves: runs report on the pending objects themselves; reports on copies are covered by
  `WorkQueue.NackOfStrayConservesExactly`.
- DocumentCache.BulletinCache.GetOrFetch: other calls and the store act between the actions of a call, not within one,
  and other calls are steps of the machine rather than objects.
- Ingestion.StatusNoticesExactly: hashes, job identifiers and dataset keys are taken to contain no colon, as hexadecimal
  digests and registry keys do not.
- Re-seeding of the registry while datasets are live, which can change a cadence or reset a dataset never checked.
- AlertBroker.Broker.Publish: runs as one step, as it does on one event loop; interleaved delivery is modelled by the
  split machine, on positions in the publication order.
- IngestionService.Service.IngestFetch: a record that raises leaves no trace of its own; the caller's transaction
  rollback after a failed ingest, which returns to an earlier store, is not modelled, nor are job status columns,
  processing durations, the raw payload store, the alert callback, and a service without a queue.
- Ingestion.RowsAreExactly: rows are keys; the other columns, and updates of station and zone columns in place, are not
  modelled. Quality control and the idempotency hash are inputs.
- WaveWatch.NodeRecordsFacts: units, model metadata and the distance annotations of records are not modelled.
- Bulletin.ParseBlocks: the checks before the scan (known kind and centre, centre named in the text, validity and issue
  times) and the conversion of blocks into forecasts are not modelled.
- The dashboard, REST and MCP wiring, routing, spatial queries, suitability and anomaly tables, migrations and
  scheduled jobs.
