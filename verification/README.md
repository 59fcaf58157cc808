# Verified model of the reverse proxy's route, activity and ownership core

This project models the stateful core of a reverse proxy compatible with configurable-http-proxy, and proves
what that core promises. `dafny verify dfyconfig.toml` checks all of it.

- **Route index** (`RouteTable`, `RouteIndex`): the insertion-ordered route map, the segment trie and request
  resolution, against a reference that knows only the history of changes.
- **Mutation tracker** (`Tracker`): the seal, the count of unfinished mutations and the bounded diagnostic ring.
- **Route registry** (`Registry`, `RegistryAdmission`, `RegistryPublication`, `RegistryAgreement`, `RegistryReplies`,
  `RegistryDiagnostics`): every interleaving of admitted mutations, the mutation lock, the store, compare-and-swap
  publication, request-thread observations, caller cancellation and drains, over any store that keeps the
  documented error contract.
- **Activity writer** (`PendingActivities`, `ActivityWriter`, `BoundedFlush`): the bounded coalescing queue, its
  worker, its wake-up channel and watermark flushes.
- **End to end** (`StoredStamps`, `MemoryStore`, `Durability`, `ShutdownFlush`): writer and registry composed, over
  the in-memory store in normal running and over any store that keeps the contract under shutdown.
- **Path ownership** (`PathOwnership`): quarantine cleanup against an adversary who rewrites the parent directory
  before every system call.
- **Redis store** (`RouteKeys`, `RedisStore`, `RedisRefinement`): transactions with other writers before every round
  trip and replies that get lost.
- **Error pages and traffic** (`Resolver`, `Chunked`, `SizeLines`, `ErrorResponse`, `Traffic`): the leased resolver
  cache, the chunked decoder inside an incremental reader, and admission and drain of public traffic.

## How the model is built

Concurrent components are step machines on values: `Enabled` says when a step can happen, `Next` what it does, and a
run is any legal list of steps, so a claim about every legal list is a claim about every interleaving of any number
of threads. Each atomic operation or critical section is one step. Objects the program updates under a lock are
classes; their methods are proved equal to the functions the machines step with. Fields named as history
(`swaps`, `recorded`, `drains`, `accepted`, `attempts`, `installs`, `trace`, `history`, `commits`, `seen`) only remember
what happened; an object's invariant ties `trace` to the directories and `history` to the hash, so that no change goes
unrecorded.

Clocks, randomness, other writers, adversaries, lost replies and failing system calls are parameters: a script or an
event carries the choice, and claims hold for every choice. Stamps are integers. Keys and texts are sequences of
characters, wire data sequences of bytes. The mutation count and the dropped-diagnostic counts saturate at 64 bits,
the resolver generation wraps and an acceptance past the last number is refused, as in the program. The atomic
counts (dropped, errors, active requests) are unbounded here.

Where code and words differ the model follows the code:

- The drain documentation says every later mutation is refused with the shutdown error
  (`src/route_table.rs:786-787`); after a terminal seal the refusal names that seal (`Tracker.MutationTracker.Begin`).
- The chunked decoder refuses trailer fields and extensions that are not UTF-8, which section 7.1 of RFC 9112 allows;
  `Chunked.DecodesEncoding` gives the exact condition and `Chunked.TrailerIsRefused` a refused encoding.
- Key cleanup looks idempotent and is not; `RouteKeys.NormalizeTwice` says exactly where.

## Model

| member | source | states |
|---|---|---|
| RouteKeys.Normalized | src/route.rs:25-35 | a key starts with a slash and is the rooted input, less one trailing slash when that is not all of it |
| RouteKeys.Normalize | src/route.rs:25-35 | the in-place edits compute exactly that key |
| RouteKeys.NormalizeTwice | src/route.rs:25-35 | cleaning a key again changes nothing if and only if the input does not end in two slashes with something before them |
| RouteKeys.DecodeKeyIsExact | src/store/redis.rs:146-162 | a persisted field is rebuilt character for character if it starts with a slash, and refused otherwise |
| RouteKeys.PersistedKeyRoundTrip | src/store/redis.rs:146-162 | every key the proxy builds reads back as itself, although cleanup is not idempotent |
| RouteKeys.DecodeKeyInjective | src/store/redis.rs:271-276 | two fields never decode to one key, so loading never merges routes |
| RouteTable.SegmentsRebuild | src/route_table.rs:892-895 | segments hold no slash and, joined by slashes, give back the trimmed path |
| RouteTable.SameNode | src/route_table.rs:892-895 | two texts share a trie node exactly when their trimmed texts are equal |
| RouteTable.TrimTakes | src/route_table.rs:892-895 | trimming takes slashes and nothing else off both ends, and leaves no outer slash |
| RouteTable.TrimIsUnique | src/route_table.rs:892-895 | so the trimmed text is the only text without outer slashes that slashes surround |
| RouteTable.SplitPrefix | src/route_table.rs:892-895 | one split is a prefix of another exactly when the texts are equal or the second continues the first after a slash |
| RouteTable.ServesBySegments | src/route_table.rs:548-563 | a key serves a request, by segments, exactly when between outer slashes the request is the key or continues it after a slash |
| RouteTable.HistoryOrder | src/route_table.rs:94-126 | after every history of replacements, stamp updates and removals the order lists each stored key once, oldest replacement first |
| RouteTable.AtInsert | src/route_table.rs:534-541 | inserting a route changes what is stored at its own path and nowhere else |
| RouteTable.AtBuild | src/route_table.rs:526-545 | a node of the built trie holds the last listed key with its segments, and nothing exactly when no stored key has them |
| RouteTable.DeepestIsDeepest | src/route_table.rs:548-563 | the walk returns the route at the longest stored prefix of the request |
| RouteTable.ResolveRefinesHistory | src/route_table.rs:517-564 | after every history of changes a request resolves to the stored key whose text between outer slashes is longest among those the request equals or continues after a slash, ties to the key replaced last, and to nothing exactly when no stored key serves it |
| RouteIndex.OrderedRoutes.FromSorted | src/route_table.rs:95-101 | the order of a loaded map is its keys in ascending order, each once |
| RouteIndex.AscendingIsUnique | src/route_table.rs:95-101 | a set of keys has one ascending listing, so that order is determined by the map |
| RouteIndex.OrderedRoutes.Replace | src/route_table.rs:103-107 | the key moves to the end of the order and takes the new record |
| RouteIndex.OrderedRoutes.ReplacePreservingActivity | src/route_table.rs:109-114 | as a replacement, but never with an older stamp than the record replaced |
| RouteIndex.OrderedRoutes.UpdateActivity | src/route_table.rs:116-120 | a present key's stamp becomes the later of the two; order and all else stay |
| RouteIndex.OrderedRoutes.Remove | src/route_table.rs:122-125 | the key leaves map and order; all else stays in place |
| RouteIndex.BuildSnapshot | src/route_table.rs:526-545 | the build loop makes the specified trie, passing over listed keys without a record |
| RouteIndex.Resolve | src/route_table.rs:548-563 | the walking loop returns the specified match |
| RouteIndex.ResolveAfter | src/route_table.rs:526-563 | building and resolving after any history gives that history's resolution |
| Tracker.MutationTracker.Begin | src/route_table.rs:285-306 | admits and counts a mutation only while open; otherwise names the seal and changes nothing |
| Tracker.MutationTracker.PushDiagnostic | src/route_table.rs:419-435 | a full ring drops and counts its oldest entry by kind before taking the new one |
| Tracker.MutationTracker.Finish | src/route_table.rs:308-324 | one fewer active mutation, and at most one diagnostic recorded |
| Tracker.MutationTracker.PanicSeal | src/route_table.rs:335-337 | overwrites the seal and nothing else |
| Tracker.MutationTracker.IndeterminateSeal | src/route_table.rs:339-341 | overwrites the seal and nothing else |
| Tracker.MutationTracker.TakeOutcome | src/route_table.rs:396-417 | returns retained failures and panics in order with the dropped counts, and empties all of them |
| Tracker.MutationTracker.SealForDrain | src/route_table.rs:360-369 | seals an open tracker and reports at once exactly when nothing is active |
| Tracker.MutationTracker.PollDrain | src/route_table.rs:373-391 | reports when nothing is active or at the deadline, timed out exactly when something still is |
| Tracker.PushRetains | src/route_table.rs:419-435 | the ring and its counters always stand for the whole list recorded since the last drain: newest 256 kept, the rest counted per kind |
| Tracker.RingConserves | src/route_table.rs:239-244 | per kind, entries kept plus entries dropped are all the entries recorded |
| RegistryAdmission.LockingStep | src/route_table.rs:834-876 | every step keeps one lock holder and lets no task past the fence once a terminal seal is set |
| RegistryAdmission.SealOrder | src/route_table.rs:335-365 | over every run the seal only moves from open to shutdown and from those to a terminal seal, which is absorbing; from then on the store never changes and no task is in or past its store call unanswered |
| RegistryAdmission.CountingAct | src/route_table.rs:308-324 | a task step keeps the active count equal to the admitted unfinished mutations, and a finish never finds it at zero |
| RegistryAdmission.CountingStep | src/route_table.rs:285-324 | a step keeps the active count exact if and only if it is not an admission at the largest count, where the counter saturates |
| RegistryAdmission.CountingRun | src/route_table.rs:285-324 | in every run without an admission at the largest count the active count is the number of admitted unfinished mutations |
| RegistryAdmission.DrainReportsActive | src/route_table.rs:360-395 | a drain reports the number of unfinished mutations, and has timed out exactly when there are any |
| RegistryAdmission.StoreCallGoesOn | src/route_table.rs:670-782 | inside its store call a task can read, write, fail or panic as its operation has it |
| RegistryAdmission.TaskGoesOn | src/route_table.rs:811-890 | everywhere else a task can take its next step; it waits for nothing but the lock and its caller |
| RegistryAdmission.DrainIsFinal | src/route_table.rs:360-392 | after a drain that did not time out, nothing is ever admitted, every mutation is finished and the store is never written again |
| RegistryPublication.LinearStep | src/route_table.rs:627-647 | every step keeps the published routes equal to the swapped changes applied in swap order, and every loaded snapshot exact |
| RegistryPublication.PublishedStampMonotone | src/route_table.rs:109-120 | while a route is not removed it stays published and its stamp never falls |
| RegistryPublication.NoObservationLost | src/route_table.rs:627-647 | an observation reported as published stays visible as long as its route is not removed |
| RegistryPublication.LookRefuses | src/route_table.rs:627-648 | an observation is refused exactly under an indeterminate seal |
| RegistryPublication.ObserverAsked | src/route_table.rs:627-648 | an observer answers for the key and stamp it was asked about |
| RegistryPublication.StampWasGiven | src/route_table.rs:94-126 | a published stamp is one loaded with the route or given by some change |
| RegistryPublication.PublicationIsLinearizable | src/route_table.rs:614-619 | in every run of any observers and publishers the snapshot is the changes in swap order, every observer's answer was true of a snapshot it names, and the registry resolves requests by that history; under an indeterminate seal it answers none |
| RegistryAgreement.CommitAgrees | src/route_table.rs:678-769 | a store commit and the change it owes the snapshot have the same effect on keys, targets and extras |
| RegistryAgreement.AgreementStep | src/route_table.rs:811-889 | every step keeps the store equal, up to stamps, to the published routes with the lock holder's owed change |
| RegistryAgreement.StoreMatchesSnapshot | src/route_table.rs:670-782 | in every run with any cancellations, whenever no task is between commit and publish and the seal is not terminal, store and snapshot have the same keys, targets and extras |
| RegistryReplies.ReplyIsEarned | src/route_table.rs:811-890 | by the event list, in every run: success means the record was written and its change swapped in, or there was nothing to persist; an ordinary error that the call failed or was refused with nothing written; indeterminate that the outcome was lost; panic that the task panicked; and each the other way round |
| RegistryReplies.SealHasItsCause | src/route_table.rs:833-862 | in every run the seal is indeterminate exactly when a lost outcome was answered, panicked exactly when a panic was, otherwise shut exactly when a drain was asked for; observers are refused only under an indeterminate seal |
| RegistryDiagnostics.HeardOrRecordedOnce | src/route_table.rs:811-890 | by the event list: a finished mutation whose store call failed, was lost or panicked, or that was refused, is answered with an error to a caller that received it, or recorded exactly once, as a panic exactly if it panicked, when its caller cancelled; one that did none of these is answered with success and leaves no entry |
| RegistryDiagnostics.NothingRecordedGoesMissing | src/route_table.rs:396-435 | per kind, everything recorded is what drains returned, what they counted as dropped, what is retained and what is counted since |
| RegistryDiagnostics.RingIsNewest | src/route_table.rs:239-244 | the ring holds the newest entries since the last drain, in order, up to its capacity |
| PendingActivities.Pending.Record | src/activity.rs:164-204 | drops a new route at capacity, else numbers the observation and coalesces it to the newest stamp and oldest pending number |
| PendingActivities.Pending.PopFront | src/activity.rs:78-95 | takes the oldest ready route with its newest stamp; both expectations of the worker hold |
| PendingActivities.Pending.Land | src/activity.rs:113-127 | clears the attempt, requeues a route observed meanwhile and drops any other |
| PendingActivities.Pending.IsComplete | src/activity.rs:253-267 | true exactly when no resident route is pending or in flight at or below the watermark |
| PendingActivities.RecordSound | src/activity.rs:164-204 | recording keeps the ready list duplicate-free and equal to the pending routes not in flight, within capacity |
| PendingActivities.HeadNeverBroken | src/activity.rs:83-92 | a ready key is resident with a pending number |
| PendingActivities.PopSound | src/activity.rs:83-94 | popping keeps the queue sound with that route the one in flight |
| PendingActivities.CompleteSound | src/activity.rs:113-127 | landing keeps the queue sound with nothing in flight |
| ActivityWriter.CompletionNeedsLanding | src/activity.rs:251-272 | only an attempt's landing changes whether a watermark already read is complete |
| ActivityWriter.QueueIntegrityAndWakeups | src/activity.rs:76-131 | in every run the queue is sound and no expectation fails; ready work never waits on a parked worker nobody will wake; a sleeping flush is notified, about to be, or the worker can move |
| ActivityWriter.FlushGuarantee | src/activity.rs:244-273 | in every run, when a flush has returned, each observation accepted before it was called was covered by a finished attempt on its route with a stamp at least as new, started after the acceptance |
| ActivityWriter.WatermarkIsStart | src/activity.rs:244-273 | a flush waits for exactly what had been accepted when it was called |
| ActivityWriter.AttemptsWereObserved | src/activity.rs:156-219 | every attempt carries a stamp that some observation accepted for its route had |
| ActivityWriter.RecordsAccounted | src/activity.rs:156-219 | each recorded observation is accepted or counted as dropped while sequence numbers last, and nothing else is accepted |
| ActivityWriter.ErrorsCountFailures | src/activity.rs:100-112 | the error count is the number of failed attempts |
| ActivityWriter.ProgressIsEnabled | src/activity.rs:75-131 | where progress is claimed the worker, or a recorder about to wake it, can take a step |
| BoundedFlush.RankZero | src/activity.rs:253-267 | the number of attempts still owed to a watermark is at most capacity plus one, and zero exactly when the watermark is complete |
| BoundedFlush.RankStep | src/activity.rs:76-131 | no step raises that number and every landing lowers it |
| BoundedFlush.FlushIsBounded | src/activity.rs:244-273 | once a watermark is read, capacity plus one landings complete it under any stream of new observations, and it stays complete |
| StoredStamps.SafeStep | src/store/memory.rs:32-74 | once a route is stored with an observed stamp and the observation is visible, every step keeps it so until the removal is published |
| StoredStamps.PersistMakesSafe | src/route_table.rs:650-667 | a completed persist leaves the visible route stored with at least the observed stamp, whatever other tasks have read |
| StoredStamps.ManagementUpdateOverwrites | src/store/memory.rs:69-74 | a management update keeps a stored bound exactly when its own stamp reaches it, while the published stamp never falls |
| Durability.LiveIsVisible | src/activity.rs:156-160 | an accepted observation shows in the published routes until its route is removed |
| Durability.FlushedIsDurable | src/activity.rs:156-273 | over the in-memory store without management updates: when a flush has returned and every attempt succeeded, each observation accepted before it was called whose route was not removed since is stored with a stamp at least as new, unless its deletion has reached the store and is about to be published |
| Durability.RunsFreely | src/activity.rs:75-131 | writer and registry restrict each other only in the worker's own calls |
| ShutdownFlush.SealedAttemptsFail | src/shutdown.rs:136-173 | over any store that keeps the contract, however its calls fail: after the seal every landed attempt but one admitted before fails, and each failure counts one persistence error |
| ShutdownFlush.SealedFlushIsBounded | src/shutdown.rs:165-173 | over any such store the flush under shutdown still ends within capacity plus one of those attempts |
| MemoryStore.Store.Add | src/store/memory.rs:32-48 | stores and returns one record stamped with the later of clock and floor, touching no other route |
| MemoryStore.Store.Put | src/store/memory.rs:50-53 | stores exactly the given record under its key |
| MemoryStore.Store.PutPreservingActivity | src/store/memory.rs:55-67 | stores and returns the record raised to the floor |
| MemoryStore.Store.UpdateActivity | src/store/memory.rs:69-74 | overwrites the stamp of a present route and creates none |
| MemoryStore.Store.Delete | src/store/memory.rs:76-78 | removes the route and returns the record removed |
| PathOwnership.FileSystem.RenameNoReplace | src/path_ownership.rs:1313-1328 | moves an entry, within a directory or between two, only onto a free name |
| PathOwnership.FileSystem.RemoveDirectory | src/path_ownership.rs:1101-1128 | removes a directory only if the name still leads to it and it is empty |
| PathOwnership.OwnedPath.Reserve | src/path_ownership.rs:951-971 | the first tried name that is free leads to a fresh empty private directory; no more than eight names are tried, another only when one is taken, and it gives up only at a failure or after the last |
| PathOwnership.OwnedPath.MoveIn | src/path_ownership.rs:985-1000 | under every interference exactly what the public name leads to is moved, or nothing is and the unused directory is given up |
| PathOwnership.OwnedPath.DropNamespace | src/path_ownership.rs:1214-1237 | an unused private directory is removed exactly when the guard is not refused and its name still leads to it, and nothing else is |
| PathOwnership.OwnedPath.Quarantine | src/path_ownership.rs:946-1006 | under every interference exactly what the public name leads to at the rename is taken into the private directory, or nothing is, because the rename failed or found nothing it may move |
| PathOwnership.OwnedPath.RemoveQuarantine | src/path_ownership.rs:1068-1076 | unlinks the verified candidate, then its empty directory |
| PathOwnership.OwnedPath.RestoreQuarantine | src/path_ownership.rs:1084-1092 | puts a foreign candidate back at the public name unless the call fails or the name is taken, then removes its directory |
| PathOwnership.OwnedPath.RemovePrivate | src/path_ownership.rs:1101-1128 | removes the private directory exactly when the call does not fail and its name still leads to it |
| PathOwnership.OwnedPath.Cleanup | src/path_ownership.rs:879-938 | against every adversary and failure the calls made and moves met are exactly the story of one fate, and the directories what replaying it gives: nothing taken, the owned inode unlinked, a foreign entry back at the public name, or held in the private directory and reported because a call failed or its place was taken; a private directory stays only if its removal failed or its name no longer led to it; undisturbed it leaves neither entry nor private directory, and a foreign or absent entry exactly as it was; a second cleanup does nothing |
| PathOwnership.StoryIsSafe | src/path_ownership.rs:879-938 | in no story is an inode unlinked but the owned one, anything taken but from the public name, or a directory removed but the private one by its own name; every foreign entry taken is back at the public name, or held because a call failed or its place was taken |
| PathOwnership.CallKeepsLinks | src/path_ownership.rs:1313-1328 | no call takes the last name of an inode but one it unlinks or the directory it removes |
| PathOwnership.CallKeepsEntries | src/path_ownership.rs:1313-1328 | no call changes an entry of any directory but at the names it was given |
| PathOwnership.CleanupLosesNothing | src/path_ownership.rs:879-938 | against every adversary no call of a cleanup takes the last name of a foreign inode or touches an entry of the parent at a foreign name |
| PathOwnership.OwnedPath.PublishInto | src/path_ownership.rs:850-873 | moves the entry onto a free name of any directory, its own included, and adopts the new place, or fails and changes neither |
| RedisStore.Store.TakeConnection | src/store/redis.rs:184-193 | empties the slot and never hands out a connection with an outstanding WATCH |
| RedisStore.Store.ReturnConnection | src/store/redis.rs:195-198 | only a connection without an outstanding WATCH goes back |
| RedisStore.Store.AtomicReplace | src/store/redis.rs:213-260 | the first round not turned down decides: success exactly if its write was answered and untouched, and then exactly one field of what other writers had left was set, once, with the record returned; the corrupt-data error exactly if the record does not encode; indeterminate exactly if the write's reply was lost; any other error is a backend one; short of a commit the hash is as the other writers left it; the connection goes back exactly on success and never while watching |
| RedisStore.ReplacementReachesFloors | src/store/redis.rs:233-237 | the stored record is stamped no older than the given record and every floor sampled |
| RedisStore.HashAccounted | src/store/redis.rs:213-449 | after a replacement, stamp update or deletion the hash is what the other writers left at some turn, or one commit on top of what they left at the end of a round |
| RedisStore.Store.UpdateActivity | src/store/redis.rs:336-401 | the first round not turned down decides: success exactly if it found no record, or re-stamped the very record the other writers had left and nothing else; the corrupt-data error exactly if that record cannot be read and written back; indeterminate exactly if the write's reply was lost; any other error is a backend one; short of a commit the hash is as the other writers left it |
| RedisStore.Store.EvalDelete | src/store/redis.rs:19-29 | the script removes the field only if it still holds exactly the text read |
| RedisStore.Store.Delete | src/store/redis.rs:403-449 | the first round not turned down decides: success exactly if the field was the same at the script as when read, and returns exactly the record removed or none; the corrupt-data error exactly if it does not decode; indeterminate exactly if the reply was lost or strange; any other error is a backend one; short of a commit the hash is as the other writers left it |
| RedisStore.CalmReplace | src/store/redis.rs:213-260 | an undisturbed round ends a replacement, with success exactly if the record encodes and else as corrupt |
| RedisStore.CalmStamp | src/store/redis.rs:336-401 | an undisturbed round ends a stamp update, with success exactly if the record can be read and written back and else as corrupt |
| RedisStore.CalmDelete | src/store/redis.rs:403-449 | an undisturbed round ends a deletion, with success exactly if the record decodes and else as corrupt |
| RedisStore.Store.Snapshot | src/store/redis.rs:265-279 | loading leaves the hash as the other writers left it, succeeds exactly when a connection is had, the read succeeds and every field loads, then returns one route per field, and gives the connection back only on success |
| RedisStore.LoadAll | src/store/redis.rs:271-276 | succeeds exactly when every field is a key and every record decodes, with one route per field under the field's own text |
| RedisRefinement.ReplacedRefines | src/store/redis.rs:239-252 | a committed replacement is one atomic replacement of the decoded routes |
| RedisRefinement.RestampedRefines | src/store/redis.rs:374-391 | a committed stamp update is one atomic stamp update of the decoded routes |
| RedisRefinement.DeletedRefines | src/store/redis.rs:416-434 | a committed deletion is one atomic deletion returning the record removed |
| RedisRefinement.ReplacementKeepsContract | src/store/mod.rs:92-120 | when the codec keeps the record, what was committed is what the store contract allows for each floor sampled |
| Resolver.ResolverCache.Fresh | src/errors.rs:117-124 | keeps and returns exactly an entry that has not expired or is leased |
| Resolver.ResolverCache.Lease | src/errors.rs:126-138 | granted exactly when that generation is current and nothing is leased |
| Resolver.ResolverCache.FinishLease | src/errors.rs:140-152 | frees that lease and, on failure, evicts that generation alone |
| Resolver.ResolverCache.Install | src/errors.rs:194-204 | the looked-up addresses and expiry become current under the next generation, which wraps |
| Resolver.LeasingStep | src/errors.rs:116-153 | every step keeps one holder per lease, its entry in the cache, and the worker's lookups under an empty unleased cache |
| Resolver.HeldLeaseIsCurrent | src/errors.rs:225-279 | in every interleaving a held lease is of the very entry in the cache, even past expiry; no other attempt holds one and no entry can be installed |
| Resolver.FinishEvictsOwnEntry | src/errors.rs:331-355 | a failed or dropped attempt evicts the entry it held and no other; a successful one leaves it; the lease is free either way |
| Resolver.NoLeaseLeaks | src/errors.rs:331-355 | when no attempt holds a lease the cached entry can be leased |
| Resolver.LooksKeep | src/errors.rs:117-124 | every look at the cache drops exactly an expired entry that is not leased, and nothing else on the way does |
| Resolver.EnsureEnds | src/errors.rs:225-252 | asking for the entry leases it if it is usable and free, is refused if it is taken, and else is queued if there is room |
| Resolver.AnswerLeases | src/errors.rs:253-272 | after an answer the lease is granted exactly if that generation is still cached and free |
| Resolver.FirstLookLeasesFresh | src/errors.rs:225-238 | an attempt that leases on its first look leases an entry that has not expired |
| Resolver.WorkerLooks | src/errors.rs:175-210 | the worker looks names up exactly when the cache has no usable entry |
| Resolver.InstallsAreLookups | src/errors.rs:183-207 | in every run entry number k holds what a lookup found, and generations count the lookups, wrapping |
| Traffic.ReleaseNeverFindsZero | src/api_server.rs:464-503 | in every interleaving of atomic operations, however often contexts are released and dropped, the count is the requests that hold it, a context holds an admission exactly while its request is admitted, and a finish never finds zero |
| Traffic.DrainIsFinal | src/api_server.rs:521-529 | once accepting is down and a drain waiter then returns, no admitted request is outstanding or ever will be |
| Traffic.ReturnsAtZero | src/api_server.rs:521-529 | a drain waiter returns exactly when, registered for notification, it finds the count at zero |
| Traffic.SleepsAboveZero | src/api_server.rs:521-529 | it falls asleep exactly when it finds requests outstanding |
| Traffic.AdmittedAtSecondLook | src/api_server.rs:464-475 | a request becomes admitted exactly when it looks the second time, counted, and the flag is still up |
| Traffic.AcceptingAdmits | src/api_server.rs:464-475 | while accepting stays up an arriving request is admitted and counted once |
| Traffic.StoppedRefuses | src/api_server.rs:464-475 | with accepting down an arriving request is turned away uncounted |
| Traffic.OwnStepsEnd | src/api_server.rs:464-503 | each of its own operations brings a request nearer to being admitted or released, and the last release notifies |
| Traffic.StateTells | src/api_server.rs:464-519 | flags, requests, waiters and notifications are what the event list says |
| Traffic.DrainWakesWaiters | src/api_server.rs:477-529 | a drain waiter asleep at zero has been notified or its notifier is on the way |
| Traffic.RequestContext.ClaimRequestActivity | src/proxy.rs:68-70 | request activity is claimed once |
| Traffic.RequestContext.ClaimResponseActivity | src/proxy.rs:72-74 | response activity is claimed once, and only for a websocket |
| Traffic.RequestContext.ClaimHttpCompletionActivity | src/proxy.rs:76-78 | a successful plain request claims its activity unless it was claimed before; any other claims nothing |
| Traffic.RequestContext.ReleaseAdmission | src/proxy.rs:80-91 | the first release takes the admission and calls finish, any later one does nothing; the traffic machine releases through the same function |
| Chunked.DecodeChunked | src/errors.rs:815-836 | the decoding loop computes the specified body |
| Chunked.DecodedExtends | src/errors.rs:815-836 | a decoded body is the same whatever follows it |
| Chunked.DecodesEncoding | src/errors.rs:815-836 | every chunked encoding, its sizes written in base 16 with digits of either case and any leading zeros, decodes to exactly its body when that is within the limit, every extension is UTF-8 and there is no trailer field, and to nothing otherwise |
| Chunked.HexValueReads | src/errors.rs:819-823 | reading hexadecimal digits inverts writing a number by its remainders and quotients by sixteen |
| SizeLines.Utf8IsText | src/errors.rs:818-820 | a line is accepted as UTF-8 exactly when it encodes a sequence of characters, as section 3 of RFC 3629 does |
| SizeLines.SizeLineReads | src/errors.rs:818-823 | a size line gives a size exactly when it is UTF-8 text and, before any semicolon, holds that number in hexadecimal with only Unicode white space around it |
| Chunked.TrailerIsRefused | src/errors.rs:825-827 | a valid encoding with a trailer field is refused |
| ErrorResponse.ReadHeaders | src/errors.rs:767-794 | the header loop computes the specified framing or refuses |
| ErrorResponse.MetadataIsUnambiguous | src/errors.rs:771-797 | accepted framing comes from a sole transfer-encoding or a sole content-length header within the limit, type and encoding from the last ones sent |
| ErrorResponse.MetadataAccepts | src/errors.rs:771-797 | headers are accepted exactly when each framing header is alone and can be read |
| ErrorResponse.ParseLengthReads | src/errors.rs:786-792 | a content length is read as the decimal number it writes |
| ErrorResponse.SameTextIs | src/errors.rs:771-797 | names are compared up to the case of ASCII letters |
| ErrorResponse.HeaderValueIs | src/errors.rs:771-797 | a value is taken as it is unless it holds a control byte other than a tab |
| ErrorResponse.PageIsAsSent | src/errors.rs:755-813 | a response parses to a page exactly when its header block is complete, small enough and acceptable, the body is the one it frames, and type and encoding are the last ones sent |
| ErrorResponse.ParseHttpResponse | src/errors.rs:755-813 | parsing computes the specified page |
| ErrorResponse.ParsedExtends | src/errors.rs:755-813 | a response that parses before the end of the stream parses to the same page from any extension |
| ErrorResponse.ReadResponse | src/errors.rs:660-683 | any page returned is the page of the whole stream; a whole stream within the wire limit gives exactly what it parses to |
| ErrorResponse.SplitsAgree | src/errors.rs:660-683 | two ways of reading one stream, to its end or while the peer keeps it open, that both return a page return the same page; within the wire limit two that deliver it whole return one result |

## Left out

- Runtime teardown that aborts a mutation task, and a failed task spawn: such a task may have committed without publishing; the agreement and diagnostics results are about runs without them.
- A closed wake-up channel: the activity worker lives as long as its writers here, so its error count is for failed attempts only.
- Memory-ordering weakness of the atomics: each atomic operation is one step of an interleaving.
- `TrafficLifecycle`, the observer and the publisher loops as objects: their fields are shared between threads at every atomic operation, so they are step machines on values rather than classes.
- `RedisStore::put` and the sidecar store: the registry never calls the former; the latter appears only as a store that keeps the contract.
- The waiter for stopped accepting: its flag and its notification are steps here, the wait itself is not.
- The JSON codec, the header tokenizer and the JSON values of extension fields: parameters, or text.
- Authentication of directory owners, modes, access lists and ancestors: guards that may refuse; creating a private directory is one step, and so is the identity check together with the removal, which is the limit the code itself documents.
- An adversary inside a private directory: outside the permission boundary the code relies on.
- The resolver's batching of waiting requests, its address limit and its name check.
- Listener binding, TLS, configuration, metrics, management handlers and URL rewriting.
- Durability.FlushedIsDurable: stated over the in-memory store, because a store shared with other writers can be overwritten by them; a flush in shutdown promises attempts, not storage, because admission is sealed first; `ShutdownFlush` states what is then true.
- RegistryAdmission.CountingRun: after an admission at the largest count the counter has saturated and is one too low, so runs with one are not claimed; `RegistryAdmission.CountingStep` gives the exact condition.
- Traffic.ReleaseNeverFindsZero: the request count is unbounded, where 2^64 requests at once would wrap it.
- ShutdownFlush.SealedAttemptsFail: the error count is unbounded, where the program's wraps at 64 bits.
- ErrorResponse.ReadResponse: beyond the wire limit whether a page is returned depends on how the stream is split, so only the page itself is stated there.
