# konfig: a verified model

konfig distributes configuration and secrets from Kubernetes to many subscribers. This
project models the parts of it that keep state: the caches and the watchers that feed
them, the per-tenant quotas, the versioned write path, the streamed HTTP bodies, the
secret subscription, access control, and the consumer's stream driver. Each part is
written as the program works (classes with methods that update fields, loops with
invariants, step protocols for concurrent parts) and is proved against a specification
that does not mention the implementation.

| file | component |
|---|---|
| `TenantCache.dfy` | per-tenant LRU byte ledger |
| `ApplyLimiter.dfy` | token bucket in front of Apply |
| `SubscriberCounts.dfy` | concurrent-subscriber admission |
| `Mirror.dfy`, `QuotaTable.dfy` | object mirror and published quota table |
| `CowCache.dfy` | copy-on-write cache, in place and under concurrent writers |
| `Watchers.dfy` | config and secret watchers, relist batching, staleness |
| `Ordering.dfy`, `ApplyPath.dfy` | Apply, BatchApply, Revert |
| `Json.dfy`, `HttpGateway.dfy` | streamed JSON array and server-sent events |
| `SecretStream.dfy` | SubscribeSecrets: snapshot, ring, channel |
| `Acl.dfy` | rule lowering, table publication, the guard |
| `Server.dfy` | where the RPC handlers hand a tenant's limit to admission and accounting |
| `Consumer.dfy` | the consumer's demultiplexer and reconnect loop |
| `Common.dfy` | shared values |

## Main results

- The two indices and the running total of a tenant's view are one recency list; eviction
  drops the shortest oldest prefix that makes it fit; a smaller budget always keeps a
  recent part of what a larger one keeps. For any sizes and budgets an entry is resident
  exactly if it has fitted, with everything served after it, ever since its own serve; while
  no entry shrinks this makes evicting along the way equal to evicting once at the end.
- The token bucket never admits more than burst plus earned tokens over any window,
  whatever the limits and clock do, and denies a call exactly when some window would be
  overdrawn. Denied calls leave no trace while limits are fixed and the clock is ordered,
  and for any clock exactly when the next call cannot notice them.
- Subscriber counts equal the guards held in every interleaving of admissions, decrements
  and delayed removals.
- Every interleaving of writers, readers and panicking writers of the cache is an atomic
  map, and a lookup tells one key's story up to some whole write; batched relists lag behind
  per-event handling by exactly the open buffer; watchers sharing a cache keep the last
  known good entry of every key.
- A batch writes nothing unless every gate passes; afterwards a prefix of the sorted items
  is stored and no second check can reject. An object's version rises in every run of
  requests exactly if its stored number is one the gate is sound for.
- Parsing the emitted event stream by section 9.2.6 of the WHATWG HTML standard gives back
  the events, each with its own body, and their ids exactly if no id has a line break or a
  NUL; a reader for compact JSON reads every printed value, and the streamed array, back.
- A secret subscriber sees the snapshot, then an unbroken run of live events, then at most
  one failure.
- The compiled access-control and quota tables mean what the raw objects say, over any run
  of connections; a tenant never holds more streams, nor after an enforced serve more cached
  bytes, than its objects declare.

## Where the code and its documentation disagree

The model follows the code.

- `parse_schema_version_from_object` is documented to return 0 for a version above
  `u32::MAX`; the cast keeps the low 32 bits instead. `GateIsSoundIff` says exactly for
  which stored numbers the version gate is still sound, `VersionsNeverFallIff` lifts this to
  runs, and `FallingVersionCounterexample` is a run in which the version falls.
- A snapshot that does not fit the subscriber's channel is documented to end with a
  RESOURCE_EXHAUSTED frame; the channel is still full when that frame is tried, so the
  client sees the first 256 events and a clean end (`OversizedNamespaceIsCutOffSilently`).
- A slow or lagging subscriber is documented to be disconnected with RESOURCE_EXHAUSTED; a
  slow one is, only if it takes something between the push that failed and the notice, and
  otherwise sees a clean end (`SilentDisconnectCounterexample`; `SlowSubscriberIsToldIff` gives
  the exact condition, `FailureIsToldIff` for both).
- `parse_acl_object` is documented to reject an object whose rules all drop out; it keeps
  the object with no rules. No decision differs.
- A bucket call with an earlier instant refills nothing but rewinds the stored instant, so
  a denied call can then be noticed (`BackwardsClockCounterexample`; `DeletedCallIff` and
  `DeniedCallDecidesIff` give the exact conditions for levels and for decisions).
- The access-control and quota watchers are documented to retain the last known good table
  across a reconnect; it is retained only until the first listed object, which publishes a
  table without the objects not listed yet while the synced flag stays set
  (a granted call is denied in `RelistDenialCounterexample`, a limited tenant falls back to
  the default in `RelistLiftsLimitCounterexample`; `DeniedDuringRelistIff` and
  `LimitSurvivesRelistIff` give the exact conditions).
- A live update that arrives between Init and InitDone of a batched relist is handled at
  once and may be undone by the older listed object when the buffer is committed
  (`LiveUpdateInRelistCounterexample`; `RelistAgreesIff` gives the exact condition for one
  relist and `StreamAgreesIff` for any stream).

## Model

| member | source | states |
|---|---|---|
| `TenantCache.TenantView.Touch` | rust/konfig/tenant_cache.rs:63-73 | re-serving moves the key to the newest end at its new size, never counting it twice; both indices and the total keep representing one list and the subtraction cannot underflow |
| `TenantCache.TenantView.EvictTo` | rust/konfig/tenant_cache.rs:80-101 | the loop leaves exactly the evicted list of the specification and returns how many entries went |
| `TenantCache.TenantView.Oldest` | rust/konfig/tenant_cache.rs:87-89 | the first tick of the ordered index is the oldest row's |
| `TenantCache.TenantView.Charge` | rust/konfig/tenant_cache.rs:138-147 | one serve under the view's lock: touch, then evict when a budget is enforced |
| `TenantCache.TenantCacheLedger.Record` | rust/konfig/tenant_cache.rs:128-152 | one serve changes one tenant's list by exactly one step, leaves all others alone, and returns that tenant's byte total |
| `TenantCache.CacheAccountant.Record` | rust/konfig/tenant_cache.rs:199-209 | Enforce evicts to the budget, the other modes only account |
| `TenantCache.IndicesInverse` | rust/konfig/tenant_cache.rs:43-57 | key index and tick index are inverse to each other |
| `TenantCache.IndexSizes` | rust/konfig/tenant_cache.rs:43-57 | both indices have one entry per list element |
| `TenantCache.PresentKey` | rust/konfig/tenant_cache.rs:64-67 | removing a key from both indices removes its row only |
| `TenantCache.PresentBytes` | rust/konfig/tenant_cache.rs:64-67 | and takes exactly its bytes off the total |
| `TenantCache.FreshKey` | rust/konfig/tenant_cache.rs:68-72 | a key inserted at the next tick becomes the newest row |
| `TenantCache.EvictionIsShortest` | rust/konfig/tenant_cache.rs:75-79 | a suffix is the result of eviction if and only if it fits and no longer one does |
| `TenantCache.ServeRespectsBudget` | rust/konfig/tenant_cache.rs:75-79 | after an enforced serve the entry just served is the newest, and the view is within budget or that entry alone |
| `TenantCache.LruInclusion` | rust/konfig/tenant_cache.rs:63-101 | for any trace and budgets ordered at each serve, the tighter view is a suffix of the looser one |
| `TenantCache.EvictionIsExact` | rust/konfig/tenant_cache.rs:63-101 | while no key is served at a smaller size than before, the view is the longest recent part of the unlimited view that fits |
| `TenantCache.ExactServeIff` | rust/konfig/tenant_cache.rs:63-101 | one serve ends where evicting only now would end if and only if no evicted entry would fit in front of the new view |
| `TenantCache.ResidentIff` | rust/konfig/tenant_cache.rs:63-101 | for any trace and budgets, an entry is in the view if and only if at every serve since its own it fitted that serve's budget together with everything served after it |
| `TenantCache.ExactIff` | rust/konfig/tenant_cache.rs:63-101 | for any trace, evicting along the way equals evicting once at the end if and only if every entry kept at the end has fitted ever since its last serve |
| `TenantCache.ShrinkingEntryCounterexample` | rust/konfig/tenant_cache.rs:63-101 | an entry evicted for one that later shrinks stays gone, so exactness fails on a concrete trace; the exact conditions are the three rows above |
| `ApplyLimiter.Limiter.TryAcquireAt` | rust/konfig/quota.rs:750-776 | refill and take in place equals the per-identity step, other buckets untouched |
| `ApplyLimiter.Limiter.AdmitAt` | rust/konfig/quota.rs:778-803 | every mode moves the bucket the same way; Permissive reports over budget exactly where Enforce denies |
| `ApplyLimiter.Limiter.ApplyAdmission` | rust/konfig/quota.rs:839-860 | quotas off or an unlimited rate never touch a bucket; otherwise the bucket decides |
| `ApplyLimiter.WindowBound` | rust/konfig/quota.rs:750-776 | over any run of consecutive calls, admitted cost plus remaining tokens is at most the first burst plus the tokens earned in between, for any limits and clock order |
| `ApplyLimiter.TightestWindow` | rust/konfig/quota.rs:750-776 | the level of the bucket is the least slack of all windows |
| `ApplyLimiter.AdmittedIffNoWindowOverdrawn` | rust/konfig/quota.rs:750-776 | a call is admitted if and only if no window ending with it would be overdrawn |
| `ApplyLimiter.ClassicBound` | rust/konfig/quota.rs:716-721 | with fixed limits and an ordered clock a window admits at most burst plus rate times its length |
| `ApplyLimiter.IdleTenantRecovers` | rust/konfig/quota.rs:716-721 | an idle tenant gets its whole burst back |
| `ApplyLimiter.DeniedCallsAreInvisible` | rust/konfig/quota.rs:750-776 | deleting any denied calls changes neither the other decisions nor what a later call finds |
| `ApplyLimiter.BackwardsClockCounterexample` | rust/konfig/quota.rs:766-768 | with a rewound instant a denied call is visible; the exact conditions are the three rows below |
| `ApplyLimiter.DeniedCallInvisibleIff` | rust/konfig/quota.rs:750-776 | with equal limits and instants in any order, a denied call changes what the next call finds unless nothing is earned, the instants are in order one way or the other, the bucket is full anyway, or the identity was never seen |
| `ApplyLimiter.DeletedCallIff` | rust/konfig/quota.rs:750-776 | in any run, deleting a denied call leaves what every later call finds unchanged if and only if that condition holds at the next call |
| `ApplyLimiter.DeniedCallDecidesIff` | rust/konfig/quota.rs:750-776 | with the clock in order from a denied call on, some later call is decided differently because of it if and only if it rewinds the instant of a bucket that earns tokens and is not full |
| `ApplyLimiter.TenantsAreIsolated` | rust/konfig/quota.rs:750-776 | in any interleaving each identity's bucket is the one its own calls leave |
| `SubscriberCounts.Counts.TryIncrement` | rust/konfig/quota.rs:555-565 | refuses exactly at a nonzero limit already reached, and then leaves the map as it was |
| `SubscriberCounts.Counts.IncrementUnchecked` | rust/konfig/quota.rs:568-575 | counts one more stream |
| `SubscriberCounts.Counts.Admit` | rust/konfig/quota.rs:526-550 | the decision per mode and the new map |
| `SubscriberCounts.Counts.Decrement` | rust/konfig/quota.rs:581-587 | first half of a release |
| `SubscriberCounts.Counts.RemoveIfZero` | rust/konfig/quota.rs:588-590 | second half: removes the entry only if it is still zero |
| `SubscriberCounts.StepKeepsAccount` | rust/konfig/quota.rs:526-602 | each atomic step keeps counts equal to guards held, and zero entries waiting for their removal |
| `SubscriberCounts.RunsAreAccounted` | rust/konfig/quota.rs:526-602 | so does every interleaving |
| `SubscriberCounts.DecrementNeverSaturates` | rust/konfig/quota.rs:581-587 | a release always finds a positive entry |
| `SubscriberCounts.RefusalIsExact` | rust/konfig/quota.rs:526-565 | after any run an admission is decided by the guards held: Enforce refuses exactly at the limit and changes nothing, Permissive reports exactly there, and the count and limit returned are right |
| `SubscriberCounts.EnforcedLimitHolds` | rust/konfig/quota.rs:526-565 | under enforced admissions a tenant never holds more guards than the largest limit used |
| `SubscriberCounts.QuiescentMapIsExact` | rust/konfig/quota.rs:577-593 | with no release half done the map holds exactly the tenants with guards |
| `Server.KonfigServer.AdmitSubscriber` | rust/konfig/grpc/mod.rs:356-402 | off counts nothing; otherwise the tenant's maxSubscribers, or the default before sync or without a quota, decides under Enforce |
| `Server.KonfigServer.CacheAccountantFor` | rust/konfig/grpc/mod.rs:478-500 | none when off; otherwise an accountant with the tenant's byte budget or the default |
| `Server.StreamsStayWithinDeclared` | rust/konfig/grpc/mod.rs:356-402 | in every interleaving, under tables that may change at every step, a tenant never holds more streams than some object always allows it |
| `Server.BytesStayWithinDeclared` | rust/konfig/grpc/mod.rs:478-500 | after an enforced serve a tenant's view holds at most the bytes some object allows it, or the entry just served alone |
| `Mirror.MirrorIsLatest` | rust/konfig/quota.rs:363-403 | the mirror holds exactly the objects whose latest version parses and was not deleted |
| `QuotaTable.MostRestrictive` | rust/konfig/quota.rs:129-143 | combines axis by axis |
| `QuotaTable.TighterIsMeet` | rust/konfig/quota.rs:145-160 | combining is commutative, associative and idempotent with unit 0 |
| `QuotaTable.PublishedTableIsUnique` | rust/konfig/quota.rs:405-416 | the specification determines the table, so the iteration order cannot be observed |
| `QuotaTable.QuotaWatcher.Publish` | rust/konfig/quota.rs:408-416 | a rebuild in any order gives each identity the least nonzero limit on each axis, or 0 |
| `QuotaTable.QuotaWatcher.HandleEvent` | rust/konfig/quota.rs:363-403 | one event's effect on mirror and sync flag, and whether to publish |
| `QuotaTable.QuotaWatcher.Pump` | rust/konfig/quota.rs:328-352 | after one connection's events the table is that of the mirror, or unchanged if nothing mutated |
| `QuotaTable.QuotaWatcher.Run` | rust/konfig/quota.rs:276-309 | over any run of connections the table is that of the last one that changed anything, and the flag is never taken back |
| `QuotaTable.QuotaIsTightestOfLatest` | rust/konfig/quota.rs:320-416 | read through the events: the least nonzero limit among the latest live versions naming the identity |
| `QuotaTable.EffectiveApplyRate` | rust/konfig/quota.rs:671-691 | the rate is the limit in force; rate and burst are zero together; an undeclared burst is one second's worth |
| `QuotaTable.EffectiveLimitFollowsObjects` | rust/konfig/quota.rs:466-480 | over any run of connections: once synced a tenant named by the objects in force is held to their least nonzero limit, anyone else and everyone before the sync to the default |
| `QuotaTable.SubscriberLimitFollowsObjects` | rust/konfig/quota.rs:466-480 | over any run of connections the stream limit is the least nonzero maxSubscribers of the latest objects naming the tenant, or the default |
| `QuotaTable.CacheBudgetFollowsObjects` | rust/konfig/quota.rs:698-712 | and the cache budget their least nonzero byte budget, or the default |
| `QuotaTable.LimitSurvivesRelistIff` | rust/konfig/quota.rs:328-352 | after a reconnect a tenant's limit is still the same if and only if nothing has been listed yet or what has been listed gives it that limit again |
| `QuotaTable.RelistLiftsLimitCounterexample` | rust/konfig/quota.rs:328-352 | a tenant falls from its declared limit to the default once a relist has named another tenant only |
| `CowCache.ConfigCache.AllInNamespace` | rust/konfig/cow_cache.rs:119-128 | exactly the namespace's snapshots, each once |
| `CowCache.ConfigCache.Update` | rust/konfig/cow_cache.rs:143-154 | an upsert, one swap |
| `CowCache.ConfigCache.Delete` | rust/konfig/cow_cache.rs:157-166 | a removal, one swap |
| `CowCache.ConfigCache.MarkAllStale` | rust/konfig/cow_cache.rs:172-185 | every entry keeps its key and payload and is stale since now, whatever the order, one swap |
| `CowCache.ConfigCache.ApplyBatch` | rust/konfig/cow_cache.rs:197-224 | all mutations in order, one swap, none if empty |
| `CowCache.StepPublishes` | rust/konfig/cow_cache.rs:143-224 | the published map stays the replay of committed writes and the active copy stays on its way to the next |
| `CowCache.Linearizable` | rust/konfig/cow_cache.rs:112-224 | in every interleaving no write is lost, writes commit in lock order, every load sees a whole number of writes and loads never go back |
| `CowCache.ReadsAreWellKeyed` | rust/konfig/cow_cache.rs:143-224 | whatever is loaded, every entry lies under its own key |
| `CowCache.LookupTellsTheStory` | rust/konfig/cow_cache.rs:112-115 | in every interleaving a lookup in a loaded map returns, field by field, the last snapshot put under that key by some prefix of the committed writes and not removed since: its payload, stale since the last mark after it |
| `Watchers.ConfigWatcher.RouteEvent` | rust/konfig/watcher.rs:278-324 | one step of the relist machine on cache, buffer and swap count |
| `Watchers.ConfigWatcher.Pump` | rust/konfig/watcher.rs:229-256 | one connection, the buffer dropped at its end |
| `Watchers.ConfigWatcher.Run` | rust/konfig/watcher.rs:167-209 | errors mark the cache and reconnect with batching, a clean end returns |
| `Watchers.SecretWatcher.HandleEvent` | rust/konfig/secret_watcher.rs:134-190 | upserts and notices of one event; a delete keeps the entry |
| `Watchers.SecretWatcher.RouteEvent` | rust/konfig/secret_watcher.rs:241-270 | the same relist machine; a buffered secret is announced all the same |
| `Watchers.SecretWatcher.Pump` | rust/konfig/secret_watcher.rs:201-232 | subscribers hear of every object in stream order, batched or not |
| `Watchers.SecretWatcher.RunWithReconnect` | rust/konfig/watcher.rs:92-125 | every disconnect marks the cache, every later connection is batched, and subscribers hear of every object of every connection in order |
| `Watchers.BatchingRefinesPerEvent` | rust/konfig/watcher.rs:278-324 | while no live upsert hits an already listed key, the batched cache lags by exactly the open buffer and equals the per-event cache outside a relist |
| `Watchers.OpenRelistIsInvisible` | rust/konfig/watcher.rs:240-246 | during a relist, and after one cut short, the cache is what it was at Init |
| `Watchers.RelistIsOneSwap` | rust/konfig/watcher.rs:287-300 | completing a relist costs one swap, or none if nothing was listed |
| `Watchers.RelistAgreesIff` | rust/konfig/watcher.rs:287-300 | with live events inside a relist, batching agrees with per-event handling if and only if each listed key's last delivered object is its last listed one |
| `Watchers.StreamAgreesIff` | rust/konfig/watcher.rs:278-324 | on any stream that leaves no relist open, batching agrees with per-event handling if and only if each key's last committed object is its last delivered one |
| `Watchers.LiveUpdateInRelistCounterexample` | rust/konfig/watcher.rs:287-300 | a live update undone by the commit |
| `Watchers.LastKnownGood` | rust/konfig/watcher.rs:337-372 | over any life of one watcher: a key's payload is that of its last committed upsert, else the first one, and it is stale since the last disconnect mark exactly if not committed since |
| `Watchers.KeysNeverVanish` | rust/konfig/watcher.rs:354-362 | no cached key ever disappears |
| `Watchers.BuffersAreOwn` | rust/konfig/secret_watcher.rs:59-92 | with any watchers interleaved on one cache, each one's relist buffer is what its own connection has built up |
| `Watchers.SharedLastKnownGood` | rust/konfig/secret_watcher.rs:59-92 | with any watchers interleaved on one cache, a key's payload is that of the last upsert committed for it, else the first one, and it is stale since the last drop of any watcher exactly if not committed since |
| `Watchers.PayloadIsOwn` | rust/konfig/secret_watcher.rs:59-92 | a key's payload depends on its own namespace's watcher alone |
| `Watchers.ReceivedIsServed` | rust/konfig/watcher.rs:337-352 | without batching, the last object received for a key, live or listed, is served with its payload and not stale |
| `Watchers.ListedIsServed` | rust/konfig/watcher.rs:287-300 | when a batched relist completes, the last object listed for a key is served with its payload and not stale |
| `Watchers.DisconnectMarksAll` | rust/konfig/watcher.rs:191-205 | a disconnect marks every entry and takes nothing away |
| `Watchers.DropMarksAll` | rust/konfig/secret_watcher.rs:70-80 | the disconnect of one watcher marks the entries of all and discards only its own relist |
| `Watchers.OnlyReconnectsBatch` | rust/konfig/watcher.rs:167-209 | the first connection is not batched and every later one is |
| `Ordering.LexMeaning` | rust/konfig/grpc/apply.rs:254-260 | string order: prefix first, else smaller at the first difference |
| `Ordering.LeMeaning` | rust/konfig/grpc/apply.rs:254-260 | the namespace decides, and only within one namespace the name |
| `Ordering.LeTotalOrder` | rust/konfig/grpc/apply.rs:254-260 | namespace-then-name order is total, antisymmetric and transitive |
| `ApplyPath.GateIsSoundIff` | rust/konfig/grpc/apply.rs:467-493 | every accepted write exceeds the stored number if and only if that number fits 32 bits or is cut to the largest one |
| `ApplyPath.AcceptedIff` | rust/konfig/grpc/apply.rs:448-493 | a write gets in if and only if kube answers and its version exceeds the stored number as far as 32 bits show it; a missing object counts as 0, so its first version gets in; a write that gets in is stored with its content |
| `ApplyPath.RunPatchRetryLoop` | rust/konfig/grpc/apply.rs:542-579 | at most three calls, all but the last conflicts; the last gives the resource version, an abort after a third conflict, or unavailable |
| `ApplyPath.ParseBatchItems` | rust/konfig/grpc/apply.rs:200-229 | accepts exactly nonempty parseable batches without repeated targets; otherwise reports the first offence, duplicate before bad YAML |
| `ApplyPath.Sorted` | rust/konfig/grpc/apply.rs:254-260 | a permutation of the batch |
| `ApplyPath.SortedAscending` | rust/konfig/grpc/apply.rs:254-260 | in ascending target order |
| `ApplyPath.AscendingIsUnique` | rust/konfig/grpc/apply.rs:254-260 | the only such permutation when targets are distinct |
| `ApplyPath.Cluster.ApplySpec` | rust/konfig/grpc/apply.rs:381-446 | read, check, patch as one step; a failure writes nothing |
| `ApplyPath.Cluster.HandleApply` | rust/konfig/grpc/apply.rs:60-78 | bad YAML, schema, failed read, stale version and patch result in this order; success stores exactly the request |
| `ApplyPath.Cluster.CheckBatch` | rust/konfig/grpc/apply.rs:139-164 | the gate accepts if and only if every item parses, is unique, valid and newer and no version read of the batch fails; otherwise it reports the first schema violation, else the failed read, else the first stale item |
| `ApplyPath.Cluster.HandleBatchApply` | rust/konfig/grpc/apply.rs:132-186 | a failing gate writes nothing; a passing one writes the sorted items up to the first that kube does not answer and reports that failure; succeeds if and only if the gate passes and kube answers for every item, then with one result per item in sorted order |
| `ApplyPath.Cluster.WriteItems` | rust/konfig/grpc/apply.rs:170-186 | the write loop stores exactly the answered prefix, reports each item's resource version in order, and never meets a version rejection |
| `ApplyPath.RecheckCannotReject` | rust/konfig/grpc/apply.rs:170-181 | after the gate, writing earlier items never makes a later one stale |
| `ApplyPath.BatchStoresItsPrefix` | rust/konfig/grpc/apply.rs:170-186 | exactly the first items are stored, the rest unchanged |
| `ApplyPath.WriteOrderIgnoresRequestOrder` | rust/konfig/grpc/apply.rs:98-106 | reordered requests give the same write order |
| `ApplyPath.GateIgnoresRequestOrder` | rust/konfig/grpc/apply.rs:139-164 | and the same verdict |
| `ApplyPath.BatchIgnoresRequestOrder` | rust/konfig/grpc/apply.rs:98-106 | reordered requests leave the same store, whatever write fails |
| `ApplyPath.Cluster.HandleRevert` | rust/konfig/grpc/revert.rs:34-87 | errors in the order of the checks; stores the old content at the revert version; passes exactly below the largest version; failures write nothing |
| `ApplyPath.RevertPassesIff` | rust/konfig/grpc/revert.rs:64-66 | the revert version is one above the larger of current and historical, or the largest; the gate passes if and only if the current version is not the largest |
| `ApplyPath.VersionsOnlyRise` | rust/konfig/grpc/apply.rs:475-493 | in every run of Apply, BatchApply and Revert requests, an object whose number the gate is sound for is untouched or replaced by a larger version, and stays so |
| `ApplyPath.FallingVersionCounterexample` | rust/konfig/grpc/apply.rs:467-493 | from any other stored number one accepted Apply makes the version fall |
| `ApplyPath.VersionsNeverFallIff` | rust/konfig/grpc/apply.rs:467-493 | an object's version rises with every write of every run if and only if its stored number fits 32 bits or is cut to the largest one |
| `ApplyPath.RevertIsNewest` | rust/konfig/grpc/revert.rs:10-13 | a revert that goes through leaves a version above all the object has had if and only if the run began with a number that fits 32 bits |
| `Json.EncodeIsOneLine` | rust/konfig/grpc/http_gateway.rs:648-652 | serialized JSON has no raw line break |
| `Json.EncodeIsNeutral` | rust/konfig/grpc/http_gateway.rs:393-400 | serialized JSON closes what it opens and shows no comma of its own level |
| `Json.ReadsBack` | rust/konfig/grpc/http_gateway.rs:648-652 | a reader written from sections 3 to 7 of RFC 8259, without white space and fractions, reads every printed value back and leaves what follows it |
| `Json.EncodeInjective` | rust/konfig/grpc/http_gateway.rs:648-652 | two values with the same serialized text are the same value |
| `HttpGateway.StreamJsonArray` | rust/konfig/grpc/http_gateway.rs:401-444 | the chunks are exactly the array of the items before the first error or end, nothing after the close |
| `HttpGateway.LeadingMeaning` | rust/konfig/grpc/http_gateway.rs:401-444 | the items streamed are exactly those before the first error or end |
| `HttpGateway.ArrayRoundTrip` | rust/konfig/grpc/http_gateway.rs:393-400 | cutting the body at its outer commas gives back one encoding per item, in order; a JSON reader reads the body as the array of the items |
| `HttpGateway.BodyIsArrayText` | rust/konfig/grpc/http_gateway.rs:393-400 | the complete body is the serialized array of the items |
| `HttpGateway.SseFrame` | rust/konfig/grpc/http_gateway.rs:653-667 | the pushed buffer is the frame |
| `HttpGateway.FrameRoundTrip` | rust/konfig/grpc/http_gateway.rs:653-667 | one frame is read as exactly one message with its name, id and data, whatever follows |
| `HttpGateway.KeepAliveIsIgnored` | rust/konfig/grpc/http_gateway.rs:629-633 | a keep-alive comment changes nothing for the client |
| `HttpGateway.EventTypeName` | rust/konfig/grpc/http_gateway.rs:638-646 | names are told apart; unknown types read as modifications |
| `HttpGateway.SseEventStream` | rust/konfig/grpc/http_gateway.rs:717-756 | the emitted chunks: frames and keep-alives until a fault, framed last, or a silent close |
| `HttpGateway.SseRoundTrip` | rust/konfig/grpc/http_gateway.rs:701-756 | given resource versions without line breaks, reading the whole response gives exactly the expected client state; an id with a NUL is ignored, as the standard says |
| `HttpGateway.SseRoundTripIff` | rust/konfig/grpc/http_gateway.rs:648-667 | for any stream the client reads exactly the messages sent, ids included, if and only if no resource version sent has a line break or a NUL |
| `HttpGateway.EventsArrive` | rust/konfig/grpc/http_gateway.rs:671-712 | the i-th message carries the i-th event's type name, its body as JSON text or {} without one, and its resource version; a fault adds one message, named RELOAD or error; nothing else arrives |
| `HttpGateway.EventsAreUpstream` | rust/konfig/grpc/http_gateway.rs:717-756 | the events are those before the first fault or close |
| `HttpGateway.ExpectedMessages` | rust/konfig/grpc/http_gateway.rs:671-712 | one message per event in order with its id, then at most one terminal message that is last and leaves the last event id alone |
| `SecretStream.Channel.TrySend` | rust/konfig/grpc/subscribe_secrets.rs:116-125 | the bounded channel |
| `SecretStream.EmitSnapshotEvents` | rust/konfig/grpc/subscribe_secrets.rs:102-129 | succeeds exactly when the snapshot fits; otherwise the channel is full of its first events and holds no notice |
| `SecretStream.PushedIsRecent` | rust/konfig/secret_watcher.rs:31-32 | the ring stays the most recent events sent, as many as it can hold |
| `SecretStream.RingReads` | rust/konfig/grpc/subscribe_secrets.rs:161-178 | the receiver reads the event sent at its position, or lags exactly when more than the capacity is unread |
| `SecretStream.StepKeepsContiguity` | rust/konfig/grpc/subscribe_secrets.rs:41-183 | every step keeps what was pushed gap-free |
| `SecretStream.DeliveryIsGapFree` | rust/konfig/grpc/subscribe_secrets.rs:41-183 | in every interleaving: a prefix of the snapshot, then a contiguous run of live events, then at most one failure; the latter two only after the whole snapshot and at most 256 entries; lag only if an unread event was overwritten |
| `SecretStream.LiveSubscriptionMissesNothing` | rust/konfig/grpc/subscribe_secrets.rs:150-183 | while live, nothing up to the receiver's position is missing |
| `SecretStream.LiveRunStartsAtAttach` | rust/konfig/grpc/subscribe_secrets.rs:41-97 | the live run starts with the first event sent after the receiver was attached |
| `SecretStream.OversizedNamespaceIsCutOffSilently` | rust/konfig/grpc/subscribe_secrets.rs:64-69 | with more than 256 entries the client gets only the first ones and never a failure notice |
| `SecretStream.FailureIsToldIff` | rust/konfig/grpc/subscribe_secrets.rs:161-178 | in every run a failure is announced if and only if the client is still there and the channel had room or was drained before the notice |
| `SecretStream.SlowSubscriberIsToldIff` | rust/konfig/grpc/subscribe_secrets.rs:162-168 | a too slow subscriber is told so if and only if it is still there and takes something between the failed push and the notice |
| `SecretStream.SilentDisconnectCounterexample` | rust/konfig/grpc/subscribe_secrets.rs:162-168 | a run in which a client that is still there misses an event and is never told |
| `Acl.VerbMeaning` | rust/konfig/grpc/authz.rs:61-67 | a token names a verb if and only if it is read or write, each letter in either case, with space around it |
| `Acl.SpaceMeaning` | rust/konfig/grpc/authz.rs:61-67 | space is the Unicode White_Space property |
| `Acl.PatternMeaning` | rust/konfig/grpc/authz.rs:122-133 | a pattern matches if and only if it is two segments around its first slash, each a star or the value |
| `Acl.LowerKeepsMeaning` | rust/konfig/acl.rs:108-119 | lowering or dropping a rule keeps what it grants |
| `Acl.PublishOneMore` | rust/konfig/acl.rs:363-371 | concatenating one more object's rules grants exactly what it adds |
| `Acl.AclWatcher.Publish` | rust/konfig/acl.rs:363-371 | a rebuild in any order grants what the mirrored objects grant |
| `Acl.AclWatcher.HandleEvent` | rust/konfig/acl.rs:318-358 | one event's effect on mirror and sync flag |
| `Acl.AclWatcher.Pump` | rust/konfig/acl.rs:281-305 | one connection: the table is that of the events, or the old one if nothing mutated |
| `Acl.AclWatcher.Run` | rust/konfig/acl.rs:228-261 | over any run of connections the table is that of the last one that changed anything, and the flag is never taken back |
| `Acl.CompilationPreservesPolicy` | rust/konfig/acl.rs:155-161 | a call is granted if and only if some object's latest live version names the identity and has a raw rule for it |
| `Acl.EnforceFollowsPolicy` | rust/konfig/grpc/authz.rs:152-208 | enforcing, after any run of connections, a call is served exactly when some list has completed, the caller is not anonymous and the raw policy in force grants it |
| `Acl.CheckMeaning` | rust/konfig/grpc/authz.rs:152-208 | off and permissive let every call pass; enforcing is unavailable until synced and then allows exactly what a rule of the caller's grants |
| `Acl.DeniedDuringRelistIff` | rust/konfig/acl.rs:281-305 | a call served before a reconnect is denied during the relist if and only if something has been listed and nothing listed grants it |
| `Acl.RelistDenialCounterexample` | rust/konfig/acl.rs:281-305 | the guard serves a granted caller and denies the same call after the first object of a relist |
| `Consumer.StreamDriver.Apply` | rust/konfig-consumer/src/stream.rs:189-237 | one event's effect on stores and cursor |
| `Consumer.StreamDriver.MarkAllStale` | rust/konfig-consumer/src/stream.rs:240-251 | marks the stores that are not stale yet |
| `Consumer.StreamDriver.Pump` | rust/konfig-consumer/src/stream.rs:108-122 | one stream's events in order |
| `Consumer.StreamDriver.Run` | rust/konfig-consumer/src/stream.rs:56-103 | refusals and errors mark, clean ends do not, and every reconnect resumes from the last version seen |
| `Consumer.StoresAgreeWithHistory` | rust/konfig-consumer/src/stream.rs:189-251 | each store holds the last snapshot published for its name, else the one it started with, stale since the first failure after it |
| `Consumer.StoresAreIsolated` | rust/konfig-consumer/src/stream.rs:189-237 | a store depends only on its name's events and the failures |
| `Consumer.ForeignEventIsInvisible` | rust/konfig-consumer/src/stream.rs:189-237 | an event of another name leaves no trace in a store, wherever it falls |
| `Consumer.TurnMeaning` | rust/konfig-consumer/src/stream.rs:56-103 | a refusal and a stream error keep payloads and mark what is not marked; a clean end marks nothing |
| `Consumer.ResumesFromLastSeen` | rust/konfig-consumer/src/stream.rs:56-103 | a reconnect resumes from the last non-empty resource version any earlier event brought |
| `Consumer.ResumesFromStart` | rust/konfig-consumer/src/stream.rs:56-103 | and from where the driver started until one has |

## Left out

- Kube clients, gRPC and HTTP wiring, TLS, identities from certificates, telemetry, gauges and counters: input, output and foreign libraries; their answers are parameters of the model.
- YAML, JSON and base64 parsing of payloads, and JSON Schema validation: parse results and validity are inputs.
- JSON numbers other than integers: the messages the gateway serializes carry none. The bodies of terminal events are inputs.
- UTF-8 encoding of the HTTP bodies: they are modelled as characters.
- Floating-point rounding of tokens and seconds: both are reals.
- Overflow of 32-bit stream counts, 64-bit ticks and byte totals: they are unbounded.
- Interleaved external writers between version read and patch, and patches whose outcome is unknown: each read, check and patch is one step, and a failed patch writes nothing.
- The sorting algorithm of the Rust standard library and its update in place: the sorted batch is a function characterised by order and permutation.
- Retry jitter and backoff delays: timing only.
- Config Subscribe replay and shard fan-out, and the resume path of SubscribeSecrets through a raw watch: not part of this model.
- Reconstruction of the secret cache from snapshot plus live events: the receiver is attached after the snapshot is read, so it does not hold; only the delivered segment is claimed.
- Schema table publication, dry runs, and Apply for secrets: not part of this model.
