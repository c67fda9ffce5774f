# A verified model of the transit core

The service polls real-time subway feeds, keeps the reported arrivals in Redis, and answers arrivals
boards that merge those live trains with the published schedule. This project models the three parts
that carry the logic and proves what they promise.

* **The board.** `ArrivalsBoard.StopReader` gathers the live entries of a stop, indexes the schedule,
  assigns live trains to scheduled trips greedily, adds the scheduled trains nobody has seen, cuts off
  and sorts. Its methods are proved equal to the function `BoardFor`. `Matching`, `BoardLaws`,
  `Directions`, `LiveBoards` and `ScheduledPurges` prove what `BoardFor` means, and `PlainTerms` says what
  its parts are in the store's cells, the schedule's rows and plain text.
* **The store and its writer.** `RedisStore` models expiring keys, sorted sets, the commands issued and
  the per-thread command buffer. `Hydration` folds a feed into one batch. `History`, `Batches` and
  `FeedOrder` are about whole runs: the store refines its history, interleaved batches are
  serializable, and disjoint feeds commute.
* **The workers.** `Workers` is a state machine with one step per server round trip and a failure
  possible at every point. `WorkerTraces` carries the results about the store over to it; `Timestamps`,
  `WorkerCycle` and `LostStamps` are about the guard on feed timestamps. `Polling` is the arithmetic of
  the sleeps, and `PolledStops` puts it to use on the store. `WorkerBoards` joins the workers to the
  reader: what a board shows in any reachable state.

`TripIds` and `StationSearch` cover the two text functions. `Sequences` and `SortedSets` hold the stable
sort and the order in which Redis lists a sorted set.

## What is assumed

* A batch is one MULTI/EXEC transaction, the default of redis-py: its commands execute together at one
  server time. An open pipeline is used even while it is still empty, as redis-py makes it truthy.
* A batch ends in one of four ways: executed and acknowledged; executed but reported as failed, because
  the reply was lost or one of its commands was refused; not executed; abandoned because its body raised.
  The last three all raise in the worker.
* A key with a lease is present while the time is strictly before its expiry, to readers and to writers.
  A sorted set that loses its last member is deleted. A command on a key of another type changes nothing.
* One board is answered from one state of the store at one time, although the source makes several reads.
* Scores, timestamps and expiries are integers. Polling times are reals.
* JSON text is kept decoded. A missing list of stop times and an empty one behave alike in the source and
  are one value here.
* The schedule rows, the static metadata and the stop names are arbitrary functions of the request.
* Character classes and `upper` are those of ASCII text.
* `Settings.Sane` collects the relations between the configured constants that some theorems need:
  0 < recently passed <= purge window, and positive leases. The shipped defaults satisfy it
  (`Models.DefaultsAreSane`).

## What the proofs brought to light

* Purging is invisible to live-only readers exactly when boards look back strictly less far than a
  refresh purges (60 and 300 seconds as shipped): `LiveBoards.PurgeIsInvisibleIff`. At equality a train
  can vanish.
* With the schedule merged that inequality is not enough: a stale entry, too old to be shown, can hold a
  scheduled trip that its purge sets free (`ScheduledPurges.ScheduledPurgeShows`, at the shipped
  settings). The assignment is left alone exactly when no listed entry that is removed has a free
  scheduled row within reach, by identifier or by route, direction and time
  (`ScheduledPurges.UndisturbedIffOutOfReach`), and then the board is unchanged
  (`ScheduledPurges.ScheduledPurgeIsInvisible`). A board is unchanged whatever the schedule says exactly
  when no listed entry is removed (`ScheduledPurges.PurgeUnseenByEverySchedule`); at a station this takes
  trips that are listed on one platform only (`ScheduledPurges.SharedTripUnseen`).
* The age limit on unmatched scheduled trains never has an effect at the shipped settings: it is redundant
  exactly when boards look back no further than it does (`BoardLaws.AgeLimitIsRedundantIff`).
* The greedy assignment matches at least half as many trains as any assignment of pairs that can be
  matched, by identifier or by route, direction and time (`Matching.MatchingIsHalfOptimal`), and no better
  factor holds (`Matching.HalfIsAttained`).
* The timestamp guard is a read and a separate write. No feed timestamp is hydrated twice, and no stored timestamp
  goes down, exactly when no two workers share a feed (`Timestamps.AtMostOnceNeedsOneWorkerPerFeed`,
  `Timestamps.StampsNeverDecreaseIff`), which the runner ensures.
* The timestamp is stored before the feed is validated and hydrated, so hydration happens at most once,
  not at least once. A cycle hydrates a newer timestamp exactly when the reply to storing it arrives, the
  feed is valid and its batch is executed (`LostStamps.CycleHydratesIff`). A timestamp that no worker can
  hydrate any more is lost for good (`LostStamps.HydratableIff`); a rejected feed and a lost reply each
  lose one (`LostStamps.RejectedFeedIsLost`, `LostStamps.LostReplyIsLost`).
* Between two commits of a feed the lease of the first outlasts one missed cycle and no more
  (`Polling.MissesToleratedIff`). Leases belong to stops, though: a stop that its feed no longer reports
  loses its lease however punctual the feed is (`History.SilentStopLapses`).

## Model

| member | source | states |
|---|---|---|
| ArrivalsBoard.StopReader.GetArrivalsBoard | src/transit_core/core/repository.py:133-305 | the imperative pipeline, loops and mutable sets included, returns exactly the declarative board of the request, in both modes and for every stop id |
| ArrivalsBoard.StopReader.GatherLive | src/transit_core/core/repository.py:147-155 | one entry per visible sorted-set member within the horizon, north platform before south, each with its platform's letter |
| ArrivalsBoard.StopReader.Choose | src/transit_core/core/repository.py:177-223 | identifier hit unless it is taken, else the nearest free trip of the route and direction; nothing without the schedule |
| ArrivalsBoard.StopReader.MergeLive | src/transit_core/core/repository.py:173-271 | one row per live entry in order, each matched knowing exactly the earlier matches; the set of matched ids at the end |
| ArrivalsBoard.StopReader.AddGhosts | src/transit_core/core/repository.py:273-296 | the live rows followed by the unmatched scheduled rows of the right platform and age, in schedule order |
| PlainTerms.UpperMeaning | src/transit_core/core/repository.py:136 | small letters become the capitals of the same place in the alphabet; nothing else changes |
| PlainTerms.RowsMeaning | src/transit_core/core/repository.py:139-165 | the schedule is asked for the stop without its platform letter and for the request's own lookahead, and only on request |
| PlainTerms.ListedMeaning | src/transit_core/core/repository.py:147-155 | a train is listed if and only if the cell of a platform the reader reads is in force and holds it at a time from 0 to 60 times the lookahead minutes from now |
| PlainTerms.EntriesInOrder | src/transit_core/core/repository.py:147-155 | trains are served northbound first, then by time, then by identifier |
| PlainTerms.RouteMeaning | src/transit_core/core/repository.py:194-210 | a route named by the live metadata is the train's whatever its id looks like; without one it is the route the id spells; it is unknown exactly when neither tells |
| PlainTerms.RouteOverRuns | src/services/subway_live_hydrator/state_manager.py:20-25 | over runs, the route in the last metadata written for the trip, while that is in force |
| PlainTerms.HeadsignMeaning | src/transit_core/core/repository.py:199-204 | the live headsign is the name of the last stop of the live metadata |
| PlainTerms.LiveRowRoute | src/transit_core/core/repository.py:194-271 | the route shown: the live metadata's, else the id's, else the matched row's, else the static metadata's by id or by suffix, else "???" |
| PlainTerms.LiveRowHeadsign | src/transit_core/core/repository.py:225-271 | the headsign shown: the last live stop's name, else the matched row's, else the static metadata's, else "In Transit"; which names count |
| PlainTerms.LiveRowOf | src/transit_core/core/repository.py:225-271 | a live row has its train's own id, platform letter and time, is marked real-time, and is marked added exactly when the schedule was consulted and gave it no trip |
| PlainTerms.ScheduledRowMeaning | src/transit_core/core/repository.py:273-303 | a board shows a schedule row, all its fields kept, if and only if no live train took its id, it runs the way of the platform asked for, and it is neither past the window nor past the cut-off |
| Matching.IndexSchedule | src/transit_core/core/repository.py:157-171 | the dictionaries built in one pass are the last row per id in first-insertion order, and the in-order filter of the rows per route and direction |
| Matching.FindById | src/transit_core/core/repository.py:181-189 | dictionary lookup and suffix scan find what the linear definition selects |
| Matching.FindNearest | src/transit_core/core/repository.py:213-223 | the loop finds the first candidate of least time difference among the free ones strictly inside the window, and none only if none is eligible |
| Matching.NearestExists | src/transit_core/core/repository.py:213-223 | a nearest candidate exists exactly when some candidate is eligible |
| Matching.LastRowMeaning | src/transit_core/core/repository.py:166-168 | the row indexed under an id is the last one that carries it; an id is indexed exactly when some row carries it |
| Matching.FirstSeenIds | src/transit_core/core/repository.py:166-186 | the iterated ids are exactly those of the rows |
| Matching.FirstSeenOrder | src/transit_core/core/repository.py:186-189 | the ids are iterated in the order of their first occurrences, although their rows are the last ones |
| Matching.IdHitMeaning | src/transit_core/core/repository.py:181-189 | a hit is a row that carries the id or extends it after an underscore; an exact row beats every suffix; no hit means no row of either kind |
| Matching.IdHitSelects | src/transit_core/core/repository.py:181-189 | the hit is the last row of its id; that id is the train's own if some row has it, and else the one of the first row whose id ends in an underscore and the train's id |
| Matching.PickMeaning | src/transit_core/core/repository.py:180-223 | a train gets the row its id selects while that is free; else, with a known route, the first nearest free row of that route and its direction strictly inside the window, or none if no row fits; else none |
| Matching.PickAt | src/transit_core/core/repository.py:176-227 | the i-th match depends on the first i trains and on what they took, and on nothing later |
| Matching.MatchingIsInjective | src/transit_core/core/repository.py:174-227 | every match is a schedule row and no scheduled trip is given to two trains |
| Matching.MatchingIsMaximal | src/transit_core/core/repository.py:180-227 | no train stays unmatched while a trip stays free that its identifier selects, or that has its known route and its direction strictly inside the window |
| Matching.MatchedIsTaken | src/transit_core/core/repository.py:226-227 | as many trains are matched as scheduled ids are consumed |
| Matching.MatchingIsHalfOptimal | src/transit_core/core/repository.py:177-227 | any assignment of (train, trip) pairs that can be matched, by identifier or by route, direction and time, and that uses each side once, has at most twice as many pairs as ids were consumed |
| Matching.HalfIsAttained | src/transit_core/core/repository.py:177-227 | for every window of at least two seconds, an input on which greedy matches one train where two could be |
| Matching.IdHitIsTaken | src/transit_core/core/repository.py:180-192 | the row a train's id selects is consumed at the end, possibly by another train |
| TripIds.InferenceInvertsLayout | src/transit_core/core/repository.py:206-210 | a route is inferred exactly from ids laid out as prefix, underscore, route, dot, rest; all other ids leave it unknown |
| TripIds.LiveIdTellsRoute | src/transit_core/core/repository.py:206-210 | ids of the live feeds' layout, with anything after the two dots, give back their route |
| TripIds.JoinSplit | src/transit_core/core/repository.py:208-210 | splitting at a character loses nothing and no part contains the separator |
| TripIds.SplitJoin | src/transit_core/core/repository.py:208-210 | splitting a joined list of separator-free parts gives back the list |
| BoardLaws.BoardIsSorted | src/transit_core/core/repository.py:298-305 | every board is in time order and shows nothing older than the cut-off |
| PlainTerms.TimeOrder | src/transit_core/core/repository.py:305 | no row of a board is due before the row above it |
| BoardLaws.BoardMembers | src/transit_core/core/repository.py:298-305 | cut-off and sort lose and duplicate no row: multiplicities are those of the unified board, and 0 before the cut-off |
| Sequences.SortCharacterized | src/transit_core/core/repository.py:305 | a list is the stable sort of another exactly when it is sorted and keeps each key class in its input order |
| Sequences.SortFilter | src/transit_core/core/repository.py:299-305 | the stable sort commutes with every filter |
| Sequences.SortMap | src/transit_core/core/repository.py:305 | the stable sort commutes with every projection that keeps the key |
| BoardLaws.MergePreservesLive | src/transit_core/core/repository.py:177-305 | the real-time rows of the merged board, as a sequence of (trip, direction, time), are the board without the schedule |
| BoardLaws.SeenLiveIsNotGhost | src/transit_core/core/repository.py:181-192 | no scheduled row carries the id of a live entry, nor the id of the row that entry's id selects, even when another train consumed that row |
| BoardLaws.NoMissedMatch | src/transit_core/core/repository.py:212-279 | a board never shows an added live train of known route next to a scheduled row of its route and direction strictly inside the window |
| BoardLaws.TrainsAreConserved | src/transit_core/core/repository.py:174-296 | one row per live entry; with distinct scheduled ids each row is consumed by exactly one train, or a scheduled row, or left out for its platform, or for its age, and the four counts add up |
| BoardLaws.AgeLimitIsRedundantIff | src/transit_core/core/repository.py:280-303 | the board built without the age limit on scheduled rows is the same board for every request, if and only if boards look back no further than the age limit |
| Directions.PicksSplit | src/transit_core/core/repository.py:174-227 | serving the trains of both directions together gives each what serving its direction alone gives |
| Directions.DirectionsDoNotInterfere | src/transit_core/core/repository.py:139-305 | when trips run one way and id hits agree with it, the station board is the sorted merge of its two platform boards: each direction's rows, in station order, are its platform's board, and there are no others |
| Directions.LiveDirectionsDoNotInterfere | src/transit_core/core/repository.py:139-305 | without the schedule this needs no hypothesis on the store |
| Models.DefaultsAreSane | src/transit_core/config.py:26-33 | the shipped constants, in minutes and hours, and that they meet the relations the theorems ask for |
| RedisStore.KeysApart | src/transit_core/core/repository.py:15-26 | the three key families never meet and each key names one entity |
| RedisStore.MembersMeaning | src/transit_core/infrastructure/state_store.py:51-58 | a board holds a trip at a time exactly if its cell, under its literal key, is a set in force with that member and score |
| RedisStore.GetTripMeaning | src/transit_core/core/repository.py:54-59 | metadata is found exactly if the cell under the trip's literal key is in force and holds it |
| RedisStore.ReadStampMeaning | src/transit_core/infrastructure/state_store.py:61-66 | a stored timestamp in force is read; absent or unreadable counts as 0 |
| SortedSets.InOrderSorted | src/transit_core/infrastructure/state_store.py:51-58 | a sorted set is listed strictly by (score, member), each member once, nothing missing |
| SortedSets.OrderedUnique | src/transit_core/infrastructure/state_store.py:51-58 | that order is total: the listing is determined by the contents |
| SortedSets.LexLessMeaning | src/transit_core/infrastructure/state_store.py:51-58 | members with equal scores come in the order of the first character in which they differ, shorter first |
| RedisStore.RedisStateStore.BeginBatch | src/transit_core/infrastructure/state_store.py:25-28 | the thread, and no other, gets an empty buffer |
| RedisStore.RedisStateStore.EndBatch | src/transit_core/redis_client.py:33-46 | acknowledged or with its reply lost, the batch has put the whole buffer in the database; refused or abandoned, it leaves the database as it was; in every case the thread has no active pipe afterwards |
| RedisStore.RedisStateStore.SetKv | src/transit_core/infrastructure/state_store.py:34-38 | one write, to the thread's buffer if it has one and to the server otherwise |
| RedisStore.RedisStateStore.SyncSet | src/transit_core/infrastructure/state_store.py:43-49 | purge, then add and expire unless there is nothing to add, in that order and through the same client |
| RedisStore.RedisStateStore.CheckAndUpdateTimestamp | src/transit_core/infrastructure/state_store.py:60-72 | stores exactly the timestamps above the stored one, and nothing else; accepts those unless the reply is lost; a refused read is an error that changes nothing |
| RedisStore.WritesBuffer | src/transit_core/infrastructure/state_store.py:34-49 | with a batch open a thread's writes only collect in its own buffer |
| RedisStore.ApplyAllLocal | src/transit_core/infrastructure/state_store.py:34-49 | what a command list does at a key depends only on what the key held |
| Batches.BatchesAreAtomic | src/transit_core/infrastructure/state_store.py:17-49 | under every interleaving the database is the executed units in order, and each buffer is what its own thread has pending |
| Batches.Serializable | src/transit_core/infrastructure/state_store.py:17-49 | every interleaving has a serial one, batches one at a time, with the same executed units and the same database |
| Batches.AbandonedBatchLeavesNoTrace | src/transit_core/redis_client.py:33-46 | a batch whose body raises or which the server refuses leaves the store as if its thread had never opened it |
| Hydration.UpdateTripStatus | src/transit_core/core/repository.py:33-39 | one set of the trip key with the trip lease, buffered or direct |
| Hydration.UpdateArrivalsBoard | src/transit_core/core/repository.py:112-118 | one refresh of the stop's key, purging up to the window before the current time |
| Hydration.FoldFeed | src/services/subway_live_hydrator/state_manager.py:20-39 | the nested loops buffer each trip's metadata in feed order and build, per stop, the board the reports define, stops in the order met |
| Hydration.WriteBoards | src/services/subway_live_hydrator/state_manager.py:40-41 | one refresh per stop, appended to the buffer in that order |
| Hydration.HydrateRealtimeData | src/services/subway_live_hydrator/state_manager.py:10-49 | acknowledged or with its reply lost, the whole feed reaches the database as one batch; refused or abandoned, nothing does; every thread's buffer is as before |
| Hydration.ReportsMeaning | src/services/subway_live_hydrator/state_manager.py:20-39 | the reports are exactly the stop times of present trip updates that carry an arrival, or else a departure, not before the current time |
| Hydration.BoardHoldsLastReports | src/services/subway_live_hydrator/state_manager.py:36-39 | a board holds the last report of each trip and no trip without one |
| Hydration.FeedBoards | src/services/subway_live_hydrator/state_manager.py:20-39 | in the feed's own order: a stop gets a trip at the last time the feed puts it there for, last entity first and within it last stop time first |
| Hydration.LastUpdateIsLast | src/services/subway_live_hydrator/state_manager.py:20-24 | the metadata left for a trip is that of the last entity to carry it |
| Hydration.UpdatesMeaning | src/services/subway_live_hydrator/state_manager.py:20-24 | metadata is written for exactly the entities that have a trip update |
| Hydration.SyncEffect | src/transit_core/infrastructure/state_store.py:43-49 | a refresh with something to add leaves the spared members, overwritten by the new, on a new lease |
| Hydration.SyncNothing | src/transit_core/infrastructure/state_store.py:43-49 | a refresh with nothing to add only purges and leaves the lease as it was |
| Hydration.StopsMeaning | src/services/subway_live_hydrator/state_manager.py:36-41 | exactly the reported stops are refreshed, each once |
| Hydration.BoardTimes | src/services/subway_live_hydrator/state_manager.py:24-39 | no written time is before the current time, and every trip on a board has metadata in the same batch |
| Hydration.TripAfter | src/services/subway_live_hydrator/state_manager.py:21-25 | a trip of the feed ends with its last metadata on a new lease; other trips are untouched |
| Hydration.BoardAfter | src/services/subway_live_hydrator/state_manager.py:34-41 | a reported stop keeps what the window spares, overwritten by the feed, on a new lease; other stops are untouched |
| Hydration.OtherAfter | src/services/subway_live_hydrator/state_manager.py:18-41 | keys of no trip and no stop are untouched |
| FeedOrder.HydrateCommutes | src/services/subway_live_hydrator/state_manager.py:18-41 | two feeds without a common trip commute on every store whose arrivals keys hold sorted sets, as in every run they do (`History.ScoresNotNegative`) |
| FeedOrder.FeedOrderIrrelevant | src/services/subway_live_hydrator/state_manager.py:18-41 | a list of pairwise disjoint feeds gives the same database, leases included, under every permutation |
| History.StoreRefinesHistory | src/services/subway_live_hydrator/state_manager.py:15-41 | after any run a stop shows a trip at a time exactly when its last report said so, no later refresh found it too old, and no lease of the stop ran out since |
| History.ScoresNotNegative | src/services/subway_live_hydrator/state_manager.py:34-39 | in every run each arrivals key is a set on a lease and no score is negative |
| History.TripKeyRefinesHistory | src/transit_core/core/repository.py:33-39 | a trip key holds the metadata of the last batch that carried the trip, leased from its execution |
| History.TripVisible | src/transit_core/core/repository.py:41-46 | a trip's metadata is found exactly when that batch is less than a trip lease old |
| History.MetadataOutlivesArrivals | src/services/subway_live_hydrator/state_manager.py:24-41 | an entry's trip key outlives its writing by a full trip lease; within it the metadata found is no older than the entry |
| LiveBoards.LiveOnlyBoard | src/transit_core/core/repository.py:225-305 | without the schedule the board is the recent entries in time order, one row each |
| LiveBoards.TripOnPlatform | src/transit_core/core/repository.py:147-305 | a trip has exactly one row on a platform's live board when the store shows it inside the board's window, and none otherwise |
| LiveBoards.FeedToBoard | src/services/subway_live_hydrator/state_manager.py:20-41 | end to end: within the lease a reader sees each reported trip once, at its last reported time, on the right direction, if that time is in the window; every other trip exactly if the store showed it in the window and the refresh spared it |
| LiveBoards.BoardRefinesHistory | src/transit_core/core/repository.py:147-305 | after any run a platform's live board shows a trip at a time exactly when the history explains it and the time is in the window; at most one row per trip, sorted |
| LiveBoards.PurgeIsInvisibleIff | src/transit_core/core/repository.py:112-118 | no purge of any stop of any store ever changes a later live-only board, if and only if boards look back strictly less far than a refresh purges |
| LiveBoards.PurgeIsInvisible | src/transit_core/infrastructure/state_store.py:46 | under that inequality, one purge at any time not after the reader's leaves the board as it is |
| LiveBoards.RefreshPurges | src/transit_core/core/repository.py:112-118 | the purge these results speak of is the one every refresh begins with |
| LiveBoards.ShallowPurgeShows | src/transit_core/infrastructure/state_store.py:46 | without it, for every configuration, a store and a reader that sees a train disappear |
| LiveBoards.PurgeDepthIsInvisible | src/transit_core/core/repository.py:112-118 | over whole runs the depth of the purge changes no live-only board, so purging only saves memory |
| ScheduledPurges.EntriesAfter | src/transit_core/infrastructure/state_store.py:46 | a purge drops entries from the reader's list, at platforms and stations, and changes no other |
| ScheduledPurges.UndisturbedIff | src/transit_core/core/repository.py:174-227 | removing entries leaves all others their trips and every free row free if and only if none of them held a trip |
| ScheduledPurges.UndisturbedIffOutOfReach | src/transit_core/core/repository.py:174-227 | at any stop that is so if and only if no listed entry removed has an id hit or a compatible row that is free when its platform's turn comes; every row is, but for a station's south platform |
| ScheduledPurges.ScheduledPurgeIsInvisible | src/transit_core/core/repository.py:133-305 | under that condition, at any stop, the board with the schedule merged is unchanged |
| ScheduledPurges.ScheduledPurgeShows | src/transit_core/core/repository.py:174-296 | at the shipped settings, a stale entry whose purge brings a scheduled train back to the board |
| ScheduledPurges.DisturbedButUnseen | src/transit_core/core/repository.py:273-296 | for one given schedule the condition is not necessary: a purge that frees a row the board would not list |
| ScheduledPurges.PurgeUnseenByEverySchedule | src/transit_core/core/repository.py:133-305 | a purge is invisible whatever the schedule says if and only if it removes no listed entry: at platforms, and at stations when the trips removed are listed on one platform only |
| ScheduledPurges.SharedTripUnseen | src/transit_core/core/repository.py:139-227 | at a station that condition is needed: a listed entry whose trip is also on the other platform, and whose removal no schedule shows |
| Workers.AlwaysBuffered | src/transit_core/infrastructure/state_store.py:25-35 | in every reachable state a thread has a buffer exactly while its batch is open, holding a prefix of its feed's batch |
| Workers.LiveKeysChangeAtCommits | src/transit_core/infrastructure/state_store.py:17-49 | a trip or arrivals key changes only in the step that executes a batch, and then by that whole batch |
| Workers.WorkersRefineHistory | src/services/subway_live_hydrator/runner.py:43-87 | under every interleaving and failure those keys equal the executed batches applied in commit order to an empty store |
| Workers.WorkersShowHistory | src/services/subway_live_hydrator/runner.py:43-87 | at any moment of any run each stop shows exactly what the log of executed batches explains |
| WorkerBoards.WorkersShowOnBoards | src/services/subway_live_hydrator/runner.py:43-87 | in any reachable state a platform's live-only board has the row of a trip at a time if and only if the log of executed batches explains it and the time is in the window; at most one row per trip, sorted |
| WorkerBoards.WorkersShowLiveTrains | src/transit_core/core/repository.py:133-305 | with the schedule merged or not, the live trains of a platform's board in any reachable state are exactly those |
| WorkerTraces.TraceDrivesStore | src/services/subway_live_hydrator/runner.py:43-87 | the workers touch the store only through its operations |
| WorkerTraces.WorkersAreSerializable | src/services/subway_live_hydrator/runner.py:43-87 | their batches never nest, and some serial execution of the same units leaves the same database |
| Timestamps.StampsAreMonotone | src/services/subway_live_hydrator/runner.py:54-60 | under every interleaving and failure the stored stamp of a feed is the largest compared or 0, and accepted and hydrated stamps increase strictly |
| Timestamps.StampsNeverDecreaseIff | src/transit_core/infrastructure/state_store.py:60-72 | no step of any run lowers a stored stamp, if and only if no two threads share a feed |
| Timestamps.StampNeverDecreases | src/transit_core/infrastructure/state_store.py:60-72 | with one thread per feed, no step lowers a stored stamp |
| Timestamps.TwoThreadsHydrateTwice | src/transit_core/infrastructure/state_store.py:60-72 | two workers on one feed have a run that hydrates one stamp twice |
| Timestamps.AtMostOnceNeedsOneWorkerPerFeed | src/services/subway_live_hydrator/runner.py:36-60 | no run hydrates a stamp twice if and only if no two threads share a feed |
| WorkerCycle.PollOnce | src/services/subway_live_hydrator/runner.py:52-60 | the body of the loop as straight-line code: stamp first, then the batch, each only under its condition; a lost reply ends the cycle |
| WorkerCycle.UninterruptedCycle | src/services/subway_live_hydrator/runner.py:52-60 | the machine's steps of one uninterrupted cycle do to the database what the straight-line code does, and log a hydration only after storing the stamp |
| WorkerCycle.RunnerHydratesAtMostOnce | src/services/subway_live_hydrator/runner.py:35-37 | one worker per configured feed, as the runner starts them, hydrates every stamp at most once in every run |
| LostStamps.CycleHydratesIff | src/services/subway_live_hydrator/runner.py:52-60 | one cycle with a newer stamp always stores it, and hydrates it if and only if the reply arrives, the feed is valid and its batch is executed |
| LostStamps.HydratableIff | src/services/subway_live_hydrator/runner.py:43-87 | some continuation of a run hydrates a stamp if and only if the run has, or a worker of the feed may: the stamp is newer than the stored one, or accepted with a valid feed and not given up |
| LostStamps.RejectedFeedIsLost | src/services/subway_live_hydrator/runner.py:54-57 | a run that accepts a stamp whose feed validation rejects, after which no continuation hydrates it |
| LostStamps.LostReplyIsLost | src/transit_core/infrastructure/state_store.py:68-72 | the same for a valid feed when the reply to storing its stamp is lost |
| Polling.Worker | src/services/subway_live_hydrator/runner.py:48-87 | the loop's clock: when each cycle starts and each batch executes |
| Polling.CycleLength | src/services/subway_live_hydrator/runner.py:62-87 | with work bounded by W and W + 10 <= ttl/3, cycles start at most ttl/3 apart: exactly so without an error, and after work plus ten seconds with one |
| Polling.CommitSpread | src/services/subway_live_hydrator/runner.py:48-87 | two commits with k cycles in between that commit nothing are at most (k+1)*ttl/3 + W apart |
| Polling.RefreshBeatsExpiry | src/services/subway_live_hydrator/runner.py:62-87 | with at most one such cycle the next commit comes strictly before the leases given by the previous one end |
| Polling.NextBatchBeatsExpiry | src/services/subway_live_hydrator/runner.py:62-87 | a worker that never misses two cycles in a row follows up each commit in that time |
| Polling.ManyMissesCanLapse | src/services/subway_live_hydrator/runner.py:62-87 | for every k above one, a bounded script with k cycles that commit nothing whose gap is a whole lease or more |
| Polling.MissesToleratedIff | src/services/subway_live_hydrator/runner.py:62-87 | every bounded script with k cycles that commit nothing keeps the gap below the lease if and only if k <= 1 |
| History.RenewedStopShowsLastReports | src/transit_core/infrastructure/state_store.py:43-49 | a stop whose leases are all renewed in time shows a trip exactly at its last reported time, unless a later refresh found that too old |
| History.SilentStopLapses | src/services/subway_live_hydrator/state_manager.py:34-41 | for every configuration, batches that keep coming in time, the second of which does not report the stop: its lease ends and an arrival due then disappears |
| PolledStops.PolledStopShowsLastReports | src/services/subway_live_hydrator/runner.py:48-87 | the sleeps put to use: a stop in every batch of a worker that never misses two cycles in a row loses no lease while the last one runs, so it shows exactly the last reports not found too old |
| StationSearch.CleanIsWordWise | src/transit_core/core/repository.py:320-324 | the three substitutions act on each word alone; separators and the number of words stay |
| StationSearch.CleanIsIdempotent | src/transit_core/core/repository.py:317-325 | a second pass changes nothing |
| StationSearch.OrdinalsWordWise | src/transit_core/core/repository.py:320-322 | the first substitution strips an ordinal ending exactly from the words that end in a digit and one |
| StationSearch.WordsWordWise | src/transit_core/core/repository.py:323-324 | the other two replace exactly the whole words |
| StationSearch.CleanPieces | src/transit_core/core/repository.py:320-324 | piece by piece: text without words stays, the next word is normalised, the rest is cleaned alike |
| StationSearch.NormaliseMeaning | src/transit_core/core/repository.py:320-324 | "street" becomes "st" and "avenue" "av"; any other word stays, unless it ends in a digit and an ordinal ending, which it then loses |
| StationSearch.OrdinalEnding | src/transit_core/core/repository.py:320-322 | after a digit two characters are stripped exactly when they spell st, nd, rd or th, each letter in either case |
| StationSearch.CharacterClasses | src/transit_core/core/repository.py:320-324 | digits and word characters, written out |

## Left out

- ArrivalsBoard.StopReader.GetArrivalsBoard: all reads of one board see one store state and one time; a refresh between two reads is not modelled.
- RedisStore.RedisStateStore.BeginBatch: requires that the thread has no open batch, because nested sessions are not supported by the source.
- RedisStore.RedisStateStore.CheckAndUpdateTimestamp: the method runs alone; the interleaved read and write are two steps of `Workers`.
- Workers.WorkersShowHistory: one clock serves all threads and the server; clock skew between machines is not modelled.
- PolledStops.PolledStopShowsLastReports: connects the real times of the sleeps to whole server seconds, stop by stop; it is about runs of batches, not about the steps of `Workers`.
- StationSearch.CleanIsWordWise: ASCII text only; the single-character flag and the pattern built from it are not part of this model.
- LiveBoards.PurgeIsInvisible: live-only boards; `ScheduledPurges` has the boards with a schedule.
- ScheduledPurges.ScheduledPurgeIsInvisible: one direction only for one given schedule and board, since a freed row need not be one the board lists; the equivalences proved are about the assignment, and about all schedules.
- Which schedule rows arrive: `get_scheduled_arrivals` formats its window as clock strings inside SQL, so its result is an arbitrary list of rows.
- SQL, spatial and trigram search, time zones and clock strings: library and database behaviour.
- Fetching over HTTP with its retries, protobuf decoding and validation: a fetched feed, or none, is an input, and validation may reject it.
- `TripReader.get_trip_arrivals`, the planner, nearby stops: they filter, map and sort only.
- The API routers, the MCP server, logging, configuration loading and connection pools: plumbing.
- The static ETL: it streams files into a database.
