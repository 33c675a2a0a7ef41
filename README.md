# CleanCity offline-first persistence, verified in Dafny

This project models the offline-first persistence and sync layer of the CleanCity mobile app. Users
report waste sites, and the app keeps them on the device and syncs them with a remote store. The
modelled parts are:

- **Offline mutation queue** (`OfflineQueue`). A persisted FIFO of mutations, each with a retry
  counter. A processing pass is guarded by a persisted flag and the online test. It skips items that
  have failed three times, removes items it handled, and adds a retry to items that failed. The
  module also has statistics and a seven-day age sweep.
- **TTL cache** (`Cache`). Entries live under `cache_<key>` and expire lazily when read. A
  `cache_metadata` side-table records each key's last access and size. It feeds the statistics and
  the age sweep.
- **Sync orchestrator** (`Sync`). A create is written locally first, under a `temp_<now>` id. It is
  then written remotely, swapping the id in place, or queued. A delete is local first, then remote or
  queued, and a temporary id never leaves the device. The queue drain has no retry cap. The pull
  replaces the whole local list.
- **Local record store** (`Storage`). The `waste_locations` array, with append, list,
  filter-delete and clear.
- **Network monitor** (`Network`). A cached status, an optimistic online test and a listener list
  with add and dispose.
- **Local user table** (`LocalAuth`). Sign-up with a duplicate check and email normalisation,
  sign-in, the current-user slot, and user deletion with cascading sign-out.
- **Sensor formatters** (`Sensors`) and the **sign-up form validator** (`Signup`).

Helper modules: `Wrappers` (Option and Result), `Seqs` (order-preserving filter), and `Text`.
`Text` holds the JavaScript `trim` white-space set, ASCII lower-casing, `startsWith`/`endsWith`
and decimal rendering of clock values.

**How the model is built.**

- *State.* Each service whose state the source rewrites is a class holding that state as `seq` or
  `map` fields. The classes are `QueueStore`, `CacheService`, `RecordStore`, `SyncService`,
  `NetworkMonitor` and `LocalAuthService`.
- *Methods.* Each method states its new state as a pure function of the old one. The properties are
  then proved about those functions.
- *Inputs from outside.* The clock, random id suffixes and serialised lengths are parameters.
  Network probe results are parameters too. So are the outcomes of calls into code outside this
  model: the queue processor, the remote store and the signed-in user. Outcomes that depend on which
  call it is are total functions of the call's position at the point of the call.
- *Reads.* `getQueue`, `getQueueStats`, `getCurrentNetworkStatus`, `getWasteLocations`,
  `getSyncQueue`, `getCurrentUserLocal` and `getAllUsersLocal` only read state. They are the
  functions `QueueStore.GetQueue`, `QueueStore.GetQueueStats`, `NetworkMonitor.GetCurrentNetworkStatus`,
  `RecordStore.GetWasteLocations`, `SyncService.GetSyncQueue`, `LocalAuthService.GetCurrentUserLocal`
  and `LocalAuthService.GetAllUsersLocal`.

Two quirks of the code are modelled as written: the raw-email duplicate test at
services/local-auth.service.ts:24, and the strict online test at firebase-backup/sync.service.ts:28.

## Model

| member | source | states |
|---|---|---|
| OfflineQueue.QueueStore.AddToQueue | services/offline-queue.service.ts:24-45 | appends exactly one item at the end, with id `queue_<now>_<suffix>`, the given type, collection and data, the clock value as timestamp, zero retries and no error; returns its id |
| OfflineQueue.RemoveByIdEffect | services/offline-queue.service.ts:70-74 | after removing an id no item has it, every other item remains, and an unknown id leaves the queue unchanged |
| OfflineQueue.QueueStore.RemoveFromQueue | services/offline-queue.service.ts:70-74 | the queue becomes the order-preserving filter of items whose id differs |
| OfflineQueue.QueueStore.ClearQueue | services/offline-queue.service.ts:81-84 | the queue becomes empty |
| OfflineQueue.FirstIndexOf | services/offline-queue.service.ts:93 | finds the first item with the id, or reports that none has it |
| OfflineQueue.MarkErrorEffect | services/offline-queue.service.ts:90-100 | only the first item with the id changes: retries grow by exactly one and the error is set; all other items are untouched; an unknown id changes nothing |
| OfflineQueue.QueueStore.MarkQueueItemError | services/offline-queue.service.ts:90-100 | the queue becomes the marked queue |
| OfflineQueue.QueueStore.ProcessQueue | services/offline-queue.service.ts:106-152 | with the flag set: no processor call, zero counts, nothing changes. Offline after probing: the same, and the flag stays clear. Otherwise the counters, the processor calls and the new queue are those of one pass over the snapshot, and the flag ends clear |
| OfflineQueue.RunAccounting | services/offline-queue.service.ts:130-147 | every snapshot item is counted once as success or failure; the processor sees exactly the items that are not exhausted, once each, in queue order |
| OfflineQueue.PassAccounting | services/offline-queue.service.ts:124-147 | `success + failed` equals the snapshot length, and no item with three or more retries reaches the processor |
| OfflineQueue.PassDistinct | services/offline-queue.service.ts:130-147 | with distinct ids, a pass leaves exactly the reference outcome: handled items gone, failing items in place with one more retry, exhausted items untouched |
| OfflineQueue.ExpectedAllThrow | services/offline-queue.service.ts:137-146 | under a processor that always throws, every item stays with its id and gains a retry unless exhausted |
| OfflineQueue.FailingPass | services/offline-queue.service.ts:137-146 | one always-failing pass keeps every item in place with one more retry unless exhausted, and ids stay distinct |
| OfflineQueue.ExpectedAllExhausted | services/offline-queue.service.ts:131-135 | the reference outcome leaves a queue of exhausted items unchanged |
| OfflineQueue.ExhaustedPass | services/offline-queue.service.ts:131-135 | a pass over exhausted items calls nothing, counts all of them as failed and changes nothing |
| OfflineQueue.RunSuccessBound | services/offline-queue.service.ts:138-140 | successes never outnumber processor calls |
| OfflineQueue.ThreeFailingPasses | services/offline-queue.service.ts:131-146 | items that always fail are exhausted after exactly three passes; statistics then count them all as failed; a fourth pass calls nothing and changes nothing |
| OfflineQueue.MaxTimestamp | services/offline-queue.service.ts:167-169 | the largest timestamp: no item is later, and some item has it |
| OfflineQueue.Stats | services/offline-queue.service.ts:160-176 | `total` is the queue length, `failed` the number of items with three or more retries, `pending + failed == total`, and `lastProcessed` is the largest timestamp, or null exactly for an empty queue |
| OfflineQueue.KeepRecentEffect | services/offline-queue.service.ts:188-198 | the sweep keeps exactly the items younger than seven days, by the order-preserving filter, and is idempotent |
| OfflineQueue.QueueStore.CleanOldQueueItems | services/offline-queue.service.ts:188-198 | the queue becomes the swept queue; it is written only when something was dropped, which changes nothing otherwise |
| OfflineQueue.ReentrantCallIsRefused | services/offline-queue.service.ts:110-114 | a call made while the flag is set hands nothing to the processor and leaves the queue alone |
| Network.NormalizeDefaults | services/network.service.ts:24-28 | an absent connectivity flag means disconnected; an absent or empty type means "unknown"; reachability is kept as reported |
| Network.NormalizeIdempotent | services/network.service.ts:47-51 | normalising an already normalised status changes nothing |
| Network.UnknownReachabilityIsOnline | services/network.service.ts:60-63 | null reachability counts as online when connected; disconnected or unreachable is never online |
| Network.InitiallyOffline | services/network.service.ts:11-15 | the status cached before any probe is offline |
| Network.NetworkMonitor.constructor | services/network.service.ts:11-17 | the cache starts as disconnected, unknown reachability, type "unknown", and no listeners |
| Network.NetworkMonitor.OnStatusEvent | services/network.service.ts:23-33 | caches the normalised status, then notifies every registered listener once with it, in registration order |
| Network.FanOut | services/network.service.ts:33 | one notification per listener, in order, all carrying the same status |
| Network.FanOutAppend | services/network.service.ts:33 | a listener added last is notified last |
| Network.NetworkMonitor.GetNetworkStatus | services/network.service.ts:44-55 | returns the normalised probe and caches it |
| Network.NetworkMonitor.IsOnlineNow | services/network.service.ts:60-63 | probes, caches, and answers connected and reachability not false |
| Network.NetworkMonitor.AddNetworkListener | services/network.service.ts:68-69 | appends the callback |
| Network.IndexOf | services/network.service.ts:73 | the first position of the callback, or -1 exactly when it is absent |
| Network.SpliceAtIndexOf | services/network.service.ts:73-76 | `indexOf` then `splice(index, 1)` removes exactly the first occurrence |
| Network.RemoveFirstEffect | services/network.service.ts:72-77 | disposing removes one registration of the callback; after it is gone, disposing again changes nothing |
| Network.RemoveFirstKeepsOthers | services/network.service.ts:72-77 | other listeners keep every registration |
| Network.NetworkMonitor.DisposeListener | services/network.service.ts:72-77 | the list becomes the list with the first occurrence removed |
| Network.NetworkMonitor.IsWiFiConnection | services/network.service.ts:90-92 | true when the cached type is "wifi"; never together with a cellular connection |
| Network.NetworkMonitor.IsCellularConnection | services/network.service.ts:97-99 | true when the cached type is "cellular"; then the cached type is not "wifi", so never together with a Wi-Fi connection |
| Network.ListenerLifecycle | services/network.service.ts:68-77 | a listener registered twice and disposed twice no longer hears events; the other one does, exactly once |
| Cache.CacheKeyCollision | services/cache.service.ts:4 | the storage key of user key `k` is the side-table's key exactly when `k` is "metadata" |
| Cache.CacheKeyInjective | services/cache.service.ts:32 | distinct user keys use distinct storage keys, all inside the `cache_` namespace |
| Cache.Lookup | services/cache.service.ts:12-17 | a key has a record exactly when some side-table entry carries it |
| Cache.Upsert | services/cache.service.ts:118-121 | `metadata[key] = info` sets exactly that key and keeps the others; a key that was absent is appended after the unchanged earlier records, and the table grows by one exactly then |
| Cache.UpsertKeys | services/cache.service.ts:118-121 | an upsert introduces no record other than the key's own, and keeps keys distinct |
| Cache.Without | services/cache.service.ts:135 | `delete metadata[key]` removes exactly the records of keys in `gone` and keeps the rest |
| Cache.WithoutNothing | services/cache.service.ts:135 | deleting no key changes nothing |
| Cache.WithoutWithout | services/cache.service.ts:180-185 | successive deletions remove the union of keys |
| Cache.Oldest | services/cache.service.ts:157-160 | the minimum of the last-access times and the starting clock value |
| Cache.StatsOf | services/cache.service.ts:143-162 | `entries` is the number of records, `totalSize` their sum, `oldestEntry` at most `now` and the minimum access time (exactly `now` for an empty table); all-zero with null exactly when no side-table is stored |
| Cache.SetThenRead | services/cache.service.ts:25-35 | after `setCache(k, v, t)` at `now`, a read at any time up to `now + t*60000` returns `v`, and none later; the record is `{now, length}` |
| Cache.ExpiredReadDeletes | services/cache.service.ts:56-59 | a read after `expiresAt` returns null, deletes the entry and its record, and no later read brings the value back |
| Cache.HitRefreshesAccess | services/cache.service.ts:62-65 | a hit returns the stored data, keeps the entry, and sets the record to the read time and the stored text's length |
| Cache.DeleteIsolated | services/cache.service.ts:72-77 | deleting a key removes its entry and record and leaves other keys' entries and records unchanged, and their reads at any clock value |
| Cache.ClearAllEffect | services/cache.service.ts:83-89 | clearing removes every `cache_` key and the side-table, keeps every other key, and leaves all-zero statistics |
| Cache.SweptDelete | services/cache.service.ts:180-185 | one more deletion during the sweep deletes one more key |
| Cache.SweepPrefix | services/cache.service.ts:180-185 | after any prefix of the walk, exactly the stale keys seen so far are gone, with their records |
| Cache.CleanEffect | services/cache.service.ts:169-185 | the sweep deletes exactly the entries whose record is older than the limit, with those records; every other entry and record is untouched |
| Cache.StaleCount | services/cache.service.ts:178-184 | the count of stale records never exceeds the table size |
| Cache.StaleCountKeys | services/cache.service.ts:178-184 | with distinct keys, the count of stale records is the number of stale keys |
| Cache.StaleKeys | services/cache.service.ts:181 | a key is stale exactly when some record for it is older than the limit |
| Cache.SetWellFormed | services/cache.service.ts:33-35 | a write keeps the layout: the side-table under its key, entries under the other `cache_` keys |
| Cache.GetWellFormed | services/cache.service.ts:53-62 | reads and deletes keep the layout |
| Cache.StatsAfterExpiry | services/cache.service.ts:155 | two writes make two entries; once one has expired and been read, one entry |
| Cache.CacheService.SetCache | services/cache.service.ts:19-36 | writes the entry with `expiresAt = now + ttl*60000`, then its record; the TTL defaults to 30 minutes |
| Cache.CacheService.GetCache | services/cache.service.ts:43-65 | returns what the pure read returns; the storage becomes the pure post-read storage |
| Cache.CacheService.DeleteCache | services/cache.service.ts:72-77 | removes the entry, then the record |
| Cache.CacheService.ClearAllCache | services/cache.service.ts:83-89 | removes all `cache_` keys and the side-table key |
| Cache.CacheService.IsCacheValid | services/cache.service.ts:97-108 | true exactly when `getCache` at the same moment would hit; it reads only |
| Cache.CacheService.UpdateCacheMetadata | services/cache.service.ts:113-123 | the side-table (empty when absent) gains or replaces the key's record |
| Cache.CacheService.RemoveCacheMetadata | services/cache.service.ts:129-137 | nothing is written when no side-table is stored; otherwise the key's record goes |
| Cache.CacheService.CleanOldCache | services/cache.service.ts:169-185 | walks the side-table snapshot, deleting each stale key; ends in the pure sweep's storage, and the count of deletions is the number of stale keys; the age limit defaults to 60 minutes |
| Storage.UnreadableIsEmpty | utils/storage.ts:59-70 | nothing stored, unparseable text and an empty list all read as `[]`; a save over any of them stores the same one-record list, and a delete over any of them stores `[]` |
| Storage.SaveAppends | utils/storage.ts:31-49 | saving appends one record after the unchanged earlier ones; it carries every input field, the id `Date.now().toString()` and the timestamp |
| Storage.SaveOverUnparseable | utils/storage.ts:31-69 | saving over unparseable text starts a list holding only the new record |
| Storage.DeleteEffect | utils/storage.ts:75-80 | deleting removes every record with the id, keeps the rest by the order-preserving filter, and changes nothing for an absent id |
| Storage.DeleteIdempotent | utils/storage.ts:76 | deleting an id twice is deleting it once |
| Storage.SaveThenDelete | utils/storage.ts:35-76 | deleting a just-saved record with a fresh id restores the earlier records |
| Storage.RecordStore.SaveWasteLocation | utils/storage.ts:25-57 | the stored list becomes the pure post-save list |
| Storage.RecordStore.DeleteWasteLocation | utils/storage.ts:73-85 | the stored list becomes the pure post-delete list |
| Storage.RecordStore.ClearAllWasteLocations | utils/storage.ts:87-89 | the key is removed, and reading then yields `[]` |
| Sync.IsOnline | firebase-backup/sync.service.ts:26-29 | online exactly when the network monitor's optimistic test on the normalised probe holds and reachability is known to be true |
| Sync.StrictImpliesOptimistic | firebase-backup/sync.service.ts:28 | the strict test implies the monitor's optimistic one; with unknown reachability only the monitor says online |
| Sync.TempIdIsTemp | firebase-backup/sync.service.ts:138 | the temporary id starts with `temp_` |
| Sync.DrainCalls | firebase-backup/sync.service.ts:100-108 | the drain calls the remote store once per item that needs a call: a create with data, or a delete |
| Sync.DrainErrors | firebase-backup/sync.service.ts:109-112 | an id is in the error list exactly when some item with it needed a call and the call failed |
| Sync.ErrorsExactlyFailed | firebase-backup/sync.service.ts:98-113 | with distinct ids, an item's id is in the error list exactly when its own call failed |
| Sync.Drain | firebase-backup/sync.service.ts:76-124 | with no user, offline, or an empty queue the drain changes nothing; it never touches the local records and never grows the queue; the sync time changes only when the queue empties |
| Sync.NoFailuresNoErrors | firebase-backup/sync.service.ts:98-113 | with no failed call the error list is empty |
| Sync.DrainAllAccepted | firebase-backup/sync.service.ts:115-117 | with no failure the queue is emptied and the sync time stamped |
| Sync.DrainKeepsExactlyFailed | firebase-backup/sync.service.ts:119-123 | with distinct ids, the remaining queue is exactly the items whose own call failed, in their queue order; a create without data is dropped as if it had succeeded; the sync time stays |
| Sync.KeepInOrder | firebase-backup/sync.service.ts:119-123 | filtering the queue by the error ids keeps exactly the items whose own call failed, in queue order |
| Sync.DrainNoRetryCap | firebase-backup/sync.service.ts:119-123 | when every call fails the queue is kept whole, however many drains run |
| Sync.Pull | firebase-backup/sync.service.ts:252-281 | with a user and online, the local list becomes exactly the remote list and the sync time is stamped; otherwise nothing changes; the queue is never touched |
| Sync.FullSyncOutcome | firebase-backup/sync.service.ts:286-294 | after drain then pull, the queue is what the drain left, and the local list is the remote list when the pull goes ahead, or unchanged otherwise |
| Sync.PullDropsUnsyncedRecord | firebase-backup/sync.service.ts:269-273 | a create that fails again during the drain stays queued, while its record leaves the local list at the pull when the remote list lacks it |
| Sync.ReplaceId | firebase-backup/sync.service.ts:168-170 | rewrites the id of every record carrying the temporary id, in place; keeps length and all other records |
| Sync.SaveAppendsLocally | firebase-backup/sync.service.ts:138-174 | a successful save appends one record built from the input after the unchanged earlier records; it carries the returned id |
| Sync.SaveWhileOffline | firebase-backup/sync.service.ts:184-195 | offline or signed out: no remote call, one `create` queued with the temporary id and the input, the temporary id returned |
| Sync.SaveWhileOnline | firebase-backup/sync.service.ts:162-183 | online with a user: one remote call. On success nothing is queued and the remote id is returned. On failure the create is queued and the temporary id is returned |
| Sync.SaveOverUnparseableThrows | firebase-backup/sync.service.ts:149-199 | when the stored list does not parse, the save throws and nothing changes |
| Sync.DeleteEffect | firebase-backup/sync.service.ts:205-247 | every local record with the id goes. A temporary id never reaches the remote store or the queue. Any other id is deleted remotely when online and signed in, and queued exactly when that is not done or fails |
| Sync.SyncService.AddToSyncQueue | firebase-backup/sync.service.ts:34-46 | appends the item |
| Sync.SyncService.ClearSyncQueue | firebase-backup/sync.service.ts:64-71 | empties the queue |
| Sync.SyncService.ProcessSyncQueue | firebase-backup/sync.service.ts:76-128 | ends in the pure drain's state and returns its remote calls |
| Sync.SyncService.AttemptAll | firebase-backup/sync.service.ts:98-113 | the loop over the snapshot issues exactly the drain's remote calls, in order, and collects exactly the drain's error ids |
| Sync.SyncService.SaveWasteLocationWithSync | firebase-backup/sync.service.ts:133-200 | the new state, remote calls and result are those of the pure save |
| Sync.SyncService.DeleteWasteLocationWithSync | firebase-backup/sync.service.ts:205-247 | the new state, remote calls and result are those of the pure delete |
| Sync.SyncService.SyncFromFirebase | firebase-backup/sync.service.ts:252-281 | ends in the pure pull's state |
| Sync.SyncService.FullSync | firebase-backup/sync.service.ts:286-300 | ends in the pull of the drain's state; the remote calls it returns are the drain's calls over the old queue when signed in and online at the drain, and none otherwise |
| Sync.SyncService.GetSyncStatus | firebase-backup/sync.service.ts:305-319 | reports the status of the current state under the probe |
| Sync.StatusAfterDrain | firebase-backup/sync.service.ts:76-128 | after a drain with every call accepted the status shows an empty queue and the drain's time; when every call fails, with no user, or offline the status is unchanged; the queue size never grows; reported online implies the monitor's test |
| LocalAuth.NormalizeEmailIdempotent | services/local-auth.service.ts:31 | normalising an email twice is normalising it once |
| LocalAuth.Find | services/local-auth.service.ts:24 | `find`: the first user satisfying the test, or none when no user does |
| LocalAuth.EmailTaken | services/local-auth.service.ts:24 | taken exactly when a stored email equals the given string, without normalising |
| LocalAuth.SignUp | services/local-auth.service.ts:15-44 | refuses exactly when the raw email is taken. Otherwise the user has the trimmed, lower-cased email, the trimmed name and the given password, and is admin exactly for `admin@cleancity.com` |
| LocalAuth.AfterSignUp | services/local-auth.service.ts:38-41 | a refused sign-up changes nothing; a successful one appends the user at the end and makes it current |
| LocalAuth.SignIn | services/local-auth.service.ts:59-65 | succeeds exactly when some user has the normalised email and the password, and returns the first such user |
| LocalAuth.AfterDeleteUser | services/local-auth.service.ts:131-137 | exactly the users with the uid go, the others stay; the current user is cleared exactly when it had the uid |
| LocalAuth.SignUpThenSignIn | services/local-auth.service.ts:31-60 | after a successful sign-up, signing in with the same email and password succeeds, and yields the new user unless an earlier user matches |
| LocalAuth.DuplicateTestOnNormalEmail | services/local-auth.service.ts:24-31 | for an email already in normal form, the raw duplicate test is the normalised one |
| LocalAuth.RawEmailDuplicate | services/local-auth.service.ts:24-31 | when no stored email equals the raw string but user `k`'s email equals its normalised form, the sign-up is accepted and stores a second user with `k`'s email; with `k`'s password, signing in afterwards yields a record that was already stored before the sign-up |
| LocalAuth.RawEmailNotStored | services/local-auth.service.ts:24-31 | when every stored email is normalised, an email that is not in normal form never equals a stored one, so the raw duplicate test lets it through |
| LocalAuth.DuplicateSignUpInstance | services/local-auth.service.ts:24-31 | with one user `a@b.com` stored, signing up `A@b.com` is accepted, leaves two users with email `a@b.com`, and signing in with `A@b.com` and the first user's password yields the first user |
| LocalAuth.LocalAuthService.SignUpLocal | services/local-auth.service.ts:15-49 | result and new state are those of the pure sign-up |
| LocalAuth.LocalAuthService.SignInLocal | services/local-auth.service.ts:51-75 | result and new state are those of the pure sign-in; a failure leaves the current user unchanged |
| LocalAuth.LocalAuthService.SignOutLocal | services/local-auth.service.ts:77-90 | the current user becomes null, so reading it yields null |
| LocalAuth.LocalAuthService.DeleteUserLocal | services/local-auth.service.ts:126-144 | the new state is that of the pure deletion |
| Sensors.NoiseBands | utils/sensors.ts:184-187 | bands are: below 40, [40, 60), [60, 80), and 80 up |
| Sensors.LightBands | utils/sensors.ts:196-199 | bands are: below 50, [50, 500), [500, 10000), and 10000 up |
| Sensors.MovementBands | utils/sensors.ts:209-212 | the highest threshold exceeded wins: at most 1.2, (1.2, 2.0], (2.0, 3.0], above 3.0 |
| Sensors.BandsMonotone | utils/sensors.ts:184-212 | a larger reading never falls in a lower band |
| Sensors.FormatNoiseLevel | utils/sensors.ts:181-188 | "N/A" exactly for no reading; otherwise the value followed by `dB` and the band label in parentheses |
| Sensors.FormatLightLevel | utils/sensors.ts:193-200 | "N/A" exactly for no reading; otherwise the value followed by `lux` and the band label in parentheses |
| Sensors.FormatAccelerometer | utils/sensors.ts:205-215 | "N/A" exactly for no record; otherwise the movement label followed by the magnitude in g |
| Sensors.LabelsDistinct | utils/sensors.ts:184-212 | distinct bands have distinct labels |
| Signup.ValidateForm | app/signup.tsx:27-54 | true exactly when the name and the email are not all white space, the email contains `@`, the password has at least 6 characters and equals the confirmation |
| Signup.FirstFailureReported | app/signup.tsx:28-51 | each error is reported exactly when its check fails and every earlier check passed |
| Signup.ValidFormHasEmail | app/signup.tsx:33-46 | a form that passes yields a non-empty normalised email for the sign-up |

## Left out

- I/O and serialisation. AsyncStorage is a typed map or field, and JSON is not modelled. Serialised
  lengths are parameters. A storage call that throws is not modelled, and neither are the `catch`
  branches that only log. This includes the outer `catch` of `processQueue`, which resets the flag
  after an unexpected exception.
- Corrupt queue, side-table and user storage. The offline queue, the sync queue, the cache side-table
  and the user table always parse. Only the `waste_locations` list has an unparseable state, because
  its readers differ: `getWasteLocations` yields `[]`, while the sync module throws.
- Concurrency. Async calls run one at a time to completion. Races between triggers, and a
  processing flag left set by a crash, are not modelled.
- The clock. Each operation gets one clock value, even where the source calls `Date.now()` twice, as
  in `setCache` and the queue item of `saveWasteLocationWithSync`. ISO timestamps are opaque strings.
- Unicode. `toLowerCase` maps ASCII letters only. String lengths count code points, not UTF-16 code
  units.
- Numbers. Readings and thresholds are exact reals: there is no NaN, infinity or float rounding. In
  the formatters, the rendering of a number in a template string is a parameter (`show`).
- The cache metadata order. JavaScript objects list integer-like keys first. The side-table is
  modelled in insertion order for every key. Only its order is affected, not its contents or the
  statistics.
- Cache.CacheService.SetCache: requires `key != "metadata"`. With that key the entry would land on
  the side-table's own storage key (Cache.CacheKeyCollision), and the JSON reinterpretation that
  follows is not modelled.
- Cache.CacheService.GetCache: requires `key != "metadata"`, for the same reason.
- Sync.SyncService.ProcessSyncQueue: the remote store's verdict is a boolean per item, so the
  remote id it returns for a queued create is not represented. The source discards it.
- OfflineQueue.QueueStore.ProcessQueue: the processor is a function of the call's position and the
  item. A processor with effects of its own on the queue is not modelled.
- Listener side effects. Fan-out records which listener received which status, and does not run the
  callbacks: a callback that adds or removes listeners during fan-out is not modelled.
- Event sources. The NetInfo subscriptions, `setupConnectivityListener` and the one-second poll of
  `onAuthStateChangeLocal` are not modelled. Events enter as explicit method calls.
- firebase-backup/firebase.service.ts and firebase-backup/auth.service.ts are not part of this model.
  Their effect enters through parameters: the remote outcomes and `signedIn`. In the repository,
  the user-records fetch turns its own errors into `[]`, which the pull would then write over the
  local list. The pull here takes a `Result`, so that case is the pull of an empty list.
- The rest of the repository is not part of this model: the HTTP client services, React screens,
  hooks and contexts, device sensor measurement, and notifications.
