# poket core, modelled in Dafny

poket is a Kotlin library that puts a facade over caches, distributed mutexes and
transactions, driven by configuration objects that can be reloaded at run time. This
project models the deterministic logic of its core and proves properties about it:
configuration resolution, the cache engine, the transaction coordinator, the mutex
protocol, and the retry and rate-limit utilities. Time, I/O and concurrency are left out.

Each Dafny file models one core Kotlin file (paths below are under the same package path), with two exceptions: `UndoRegisters` models both `Sagas.kt` and `UndoableActions.kt`, and object_cache_transaction_handler.dfy holds two modules for its one file.

| Dafny module (file) | Kotlin source | form |
|---|---|---|
| `CacheConfiguration` (cache_config.dfy) | cache/CacheConfig.kt | datatypes and functions |
| `MutexConfiguration` (mutex_config.dfy) | mutex/MutexConfig.kt (com package) | datatypes and functions |
| `ObjectCaching` (object_cache.dfy) | cache/ObjectCache.kt | class `ObjectCache` over a `MapCacheSystem`; namespaces as functions |
| `MapCaching` (map_cache_system.dfy) | cache/MapCacheSystem.kt | class `MapCacheSystem` holding the namespace → key → entry map |
| `ErrorIgnoring` (error_ignore_cache_system.dfy) | cache/decorators/ErrorIgnoreCacheSystem.kt | `RunOrFail` as a function; class `ErrorIgnoreCacheSystem` |
| `CachePending`, `CacheTransactionHandler` (object_cache_transaction_handler.dfy) | cache/decorators/ObjectCacheTransactionHandler.kt | class `PendingCacheOperations` over an ordered map |
| `TransactionAwareCaching` (transaction_aware_cache_system.dfy) | cache/decorators/TransactionAwareCacheSystem.kt (com package) | class `TransactionAwareCacheSystem`; the commit grouping as functions |
| `CacheKeySerializing` (cache_key_serializing.dfy) | cache/utils/CacheKeySerializing.kt | methods with loops, specified by functions |
| `Transactions` (transaction_manager.dfy) | transaction/TransactionManager.kt | class `TransactionManager`; the handler call sequences as functions |
| `RollbackRules` (transaction_metadata.dfy) | transaction/TransactionMetadata.kt | datatype and predicate |
| `UndoRegisters` (undo_registers.dfy) | transaction/utils/Sagas.kt and transaction/utils/UndoableActions.kt | class `UndoRegister` and handler methods |
| `TransactionHooks` (transaction_hooks.dfy) | transaction/TransactionHooks.kt (com package) | class `TransactionHookRegister` |
| `DistributedMutexes` (distributed_mutex.dfy) | mutex/DistributedMutex.kt | datatypes and functions over lock-system behaviours |
| `ConfigProviders` (config_provider.dfy) | config/ConfigProvider.kt | class `ConfigProvider`; the source fold as a function |
| `ConfigSources` (constant_config_source.dfy) | config/utils/ConstantConfigSource.kt | class `ConstantConfigSource` |
| `PropertyTrees` (config_property_tree.dfy) | config/propertytree/ConfigPropertyTree.kt | datatypes and functions, with class `PropertyTree` for the mutating operations |
| `RetryProfileConfiguration` (retry_profile_config.dfy) | utils/retry/RetryProfileConfig.kt | datatypes and functions |
| `RetryHandling` (retry_handler.dfy) | utils/retry/RetryHandler.kt | method with the retry loop |
| `RateLimitConfiguration` (rate_limit_config.dfy) | utils/ratelimit/RateLimitConfig.kt | datatypes and functions |
| `RateLimiting` (rate_limiter.dfy) | utils/ratelimit/RateLimiter.kt | class `RateLimiter` with the per-key event lists |

Shared helper modules:
- `Base`: `Option` for Kotlin's nullable values, `Outcome` for a call that returns or throws, and `Exception` (the classes an exception is an instance of, and its message).
- `AssocLists`: Kotlin's insertion-ordered `LinkedHashMap`.
- `Strings`: `joinToString`, `split` and `trim`, which strips what Kotlin's `Char.isWhitespace` accepts: Java's whitespace controls and every Unicode space, line and paragraph separator.
- `Numbers`: `Int.toString()`, `Integer.parseUnsignedInt` and `toInt()`. Parsing takes the decimal digits of every script in the Basic Multilingual Plane, as Java's `Character.digit` does.
- `Sorting`: the stable `sortedBy`.

What the core reads from the outside is an explicit input to each operation:
- the current time;
- for each namespace an operation builds, the number drawn for its load-test rolling suffix (every build draws afresh, so one operation may use several different numbers);
- the exceptions that handlers, lock systems and cache systems throw (for a handler's commit, separately for each of the two rounds a block may run, so that a handler may fail once and then succeed);
- whether a transaction is open;
- the configuration currently served.

## Model

| member | source | states |
|---|---|---|
| CacheConfiguration.CacheTypeConfig.OverriddenWith | poket-facade/src/main/kotlin/io/github/andresviedma/poket/cache/CacheConfig.kt:67-81 | every field the override defines wins and every other field keeps its value; a null override gives back the same configuration |
| CacheConfiguration.CacheTypeConfig.IsOutdated | poket-facade/src/main/kotlin/io/github/andresviedma/poket/cache/CacheConfig.kt:58-65 | never outdated without an outdate time; with one, a missing generation time is always outdated |
| CacheConfiguration.CacheTypeConfig.NamespaceParts | poket-facade/src/main/kotlin/io/github/andresviedma/poket/cache/CacheConfig.kt:54-56 | the non-null parts in order: component namespace, type, serialization version, version, rolling suffix "r<n>"; the count is 2 plus one per defined optional part |
| CacheConfiguration.CacheTypeConfig.Namespace | poket-facade/src/main/kotlin/io/github/andresviedma/poket/cache/CacheConfig.kt:83-84 | fails exactly when the rolling factor is below 1 (an empty random range); otherwise the parts joined with "-" |
| CacheConfiguration.CacheTypeConfig.IsUpdatableAsynchronously | poket-facade/src/main/kotlin/io/github/andresviedma/poket/cache/CacheConfig.kt:58-59 | a type is updated asynchronously exactly when its resolved configuration defines an outdate time |
| CacheConfiguration.AsynchronousIffSomeLayerSetsOutdate | poket-facade/src/main/kotlin/io/github/andresviedma/poket/cache/CacheConfig.kt:58-59 | a resolved type is updated asynchronously exactly when its own entry, the caller's default or the global default sets an outdate time, since DEFAULTS sets none |
| CacheConfiguration.WholeSeconds | poket-facade/src/main/kotlin/io/github/andresviedma/poket/cache/CacheConfig.kt:64 | milliseconds truncated toward zero to whole seconds, for both signs |
| CacheConfiguration.CacheConfig.GetTypeConfig | poket-facade/src/main/kotlin/io/github/andresviedma/poket/cache/CacheConfig.kt:10-14 | each field comes from the type's entry, else the caller's default, else the global default, else DEFAULTS; the fields DEFAULTS sets are always defined |
| CacheConfiguration.EmptyConfigGivesDefaults | poket-facade/src/test/kotlin/io/github/andresviedma/poket/cache/CacheConfigTest.kt:9-12 | an empty configuration resolves every type to exactly DEFAULTS |
| CacheConfiguration.OutdatedThreshold | poket-facade/src/main/kotlin/io/github/andresviedma/poket/cache/CacheConfig.kt:61-65 | with a non-negative outdate time t, a value is outdated iff at least (t + 1) * 1000 ms have passed since its generation |
| CacheConfiguration.NamespaceSplitsBack | poket-facade/src/main/kotlin/io/github/andresviedma/poket/cache/CacheConfig.kt:54-56 | when no part contains "-", splitting the namespace on "-" gives back exactly its parts |
| MutexConfiguration.MutexTypeConfig.OverriddenWith | poket-facade/src/main/kotlin/com/github/andresviedma/poket/mutex/MutexConfig.kt:38-45 | every field the override defines wins and every other field keeps its value; a null override gives back the same configuration |
| MutexConfiguration.TypeSubparts | poket-facade/src/main/kotlin/com/github/andresviedma/poket/mutex/MutexConfig.kt:24-27 | one entry per "::"-segment; entry i is the first i + 1 segments joined with "::" |
| MutexConfiguration.TypeSubpartsArePrefixes | poket-facade/src/main/kotlin/com/github/andresviedma/poket/mutex/MutexConfig.kt:24-27 | every subpart is a prefix of the type and the last subpart is the type itself |
| MutexConfiguration.OverrideWithPartsLookup | poket-facade/src/main/kotlin/com/github/andresviedma/poket/mutex/MutexConfig.kt:17-22 | after the fold, each field comes from the latest subpart whose entry defines it, else from the starting configuration |
| MutexConfiguration.MutexConfig.GetTypeConfig | poket-facade/src/main/kotlin/com/github/andresviedma/poket/mutex/MutexConfig.kt:16-22 | each field comes from the most specific "::"-prefix that defines it, else the base type config, else the global default, else DEFAULTS; the fields DEFAULTS sets are always defined |
| MutexConfiguration.SubpartsOfJoin | poket-facade/src/main/kotlin/com/github/andresviedma/poket/mutex/MutexConfig.kt:24-27 | for segments without ':', the subparts of their "::"-join are the joins of their prefixes |
| MutexConfiguration.MixingConfigParts | poket-facade/src/test/kotlin/io/github/andresviedma/poket/mutex/MutexConfigTest.kt:8-27 | a six-level type takes each field from the most specific level setting it and the fallback lock system from the default, for any six segment names |
| MutexConfiguration.UndefinedWithNoDefault | poket-facade/src/test/kotlin/io/github/andresviedma/poket/mutex/MutexConfigTest.kt:29-37 | with nothing configured, every type resolves to DEFAULTS |
| MutexConfiguration.UndefinedWithDefault | poket-facade/src/test/kotlin/io/github/andresviedma/poket/mutex/MutexConfigTest.kt:39-49 | with only a fully defined default, every type resolves to that default |
| MutexConfiguration.BaseTypeConfigPrecedence | poket-facade/src/test/kotlin/io/github/andresviedma/poket/mutex/MutexConfigTest.kt:51-71 | the base type config beats the global default but loses to a configured part of the type |
| ObjectCaching.MissingMembers | poket-facade/src/main/kotlin/io/github/andresviedma/poket/cache/ObjectCache.kt:158-159 | the keys passed to the generator are exactly the requested keys without a cached value |
| ObjectCaching.MissingConcat | poket-facade/src/main/kotlin/io/github/andresviedma/poket/cache/ObjectCache.kt:158-165 | the pending keys keep input order: the pending keys of a concatenation are those of each half, concatenated |
| ObjectCaching.AllCachedNothingMissing | poket-facade/src/main/kotlin/io/github/andresviedma/poket/cache/ObjectCache.kt:162-163 | when every requested key is cached there are no pending keys |
| ObjectCaching.CachedPart | poket-facade/src/main/kotlin/io/github/andresviedma/poket/cache/ObjectCache.kt:160 | the cached map holds exactly the requested keys that have a cached value, with that value |
| ObjectCaching.NamespacesDiffer | poket-facade/src/main/kotlin/io/github/andresviedma/poket/cache/ObjectCache.kt:238-242 | two namespaces built from one configuration, type and rolling number differ when their serialization versions differ, so values and generation times ("gents") never share a namespace unless the version is "gents" |
| ObjectCaching.DrawsSeparateNamespaces | poket-facade/src/main/kotlin/io/github/andresviedma/poket/cache/CacheConfig.kt:54-56 | under a load-test factor, two different draws give two different namespaces whatever their serialization versions, because the namespace ends with "-r" and the drawn number |
| ObjectCaching.VersionsSeparateNamespaces | poket-facade/src/main/kotlin/io/github/andresviedma/poket/cache/ObjectCache.kt:238-242 | the namespaces of two different serialization versions differ for any two draws, so a value and a generation time share a namespace only when the version is "gents" |
| ObjectCaching.PlainNamespace | poket-facade/src/test/kotlin/io/github/andresviedma/poket/cache/ObjectCacheTest.kt:144-147 | no optional part gives "type-version", a component namespace is put first ("myservice-test-1") and a version is put last ("test-1-v10") |
| ObjectCaching.ObjectCache.constructor | poket-facade/src/main/kotlin/io/github/andresviedma/poket/cache/ObjectCache.kt:41-60 | the cache keeps its cache system, type, serialization version, default type config and configuration; no rolling number is fixed, since each namespace draws its own |
| ObjectCaching.ObjectCache.Get | poket-facade/src/main/kotlin/io/github/andresviedma/poket/cache/ObjectCache.kt:67-70 | a disabled type returns null; an enabled type with an empty rolling range (factor below 1) throws; otherwise a value is returned iff the cache system holds one in the namespace under the draw, and then it is that value |
| ObjectCaching.ObjectCache.ValueReadAfterPut | poket-facade/src/main/kotlin/io/github/andresviedma/poket/cache/ObjectCache.kt:85-94 | after the writes of put, the value reads back under the draw it was written with exactly when the generation time did not land on it (serialization version "gents", an outdate time, and no factor or equal draws); the generation time reads back as now under its own draw |
| ObjectCaching.ObjectCache.PutUnseenUnderOtherDraw | poket-facade/src/main/kotlin/io/github/andresviedma/poket/cache/ObjectCache.kt:85-94 | under a load-test factor a read with another draw than the value's sees what was there before the put, or nothing when the generation time landed there; the generation time is not seen under a draw other than its own and the value's |
| ObjectCaching.ObjectCache.PutHitsOneDrawOnly | poket-facade/src/main/kotlin/io/github/andresviedma/poket/cache/CacheConfig.kt:36-40 | with a load-test factor f, of the f draws a read can make exactly one, the put's, finds a value no draw found before: the expected hit ratio of 1/f |
| ObjectCaching.ObjectCache.Put | poket-facade/src/main/kotlin/io/github/andresviedma/poket/cache/ObjectCache.kt:85-96 | a disabled type changes nothing; an enabled type with an empty rolling range throws before writing; otherwise the value is stored under its draw with the override TTL or the configured one, plus the generation time under its own draw when the type is updatable asynchronously, and get with the value's draw returns the value unless the generation time landed on it |
| ObjectCaching.ObjectCache.PutList | poket-facade/src/main/kotlin/io/github/andresviedma/poket/cache/ObjectCache.kt:106-111 | a disabled type changes nothing; an enabled type with an empty rolling range throws; otherwise every value is stored in the namespace under the draw with one TTL and flag |
| ObjectCaching.ObjectCache.Invalidate | poket-facade/src/main/kotlin/io/github/andresviedma/poket/cache/ObjectCache.kt:116-125 | a disabled type changes nothing; an enabled type with an empty rolling range throws; otherwise the key gets a tombstone in the value namespace under its draw and, for a type updatable asynchronously, one in the generation-time namespace under its own draw, and no other entry changes; get with the value's draw returns nothing afterwards |
| ObjectCaching.ObjectCache.InvalidateList | poket-facade/src/main/kotlin/io/github/andresviedma/poket/cache/ObjectCache.kt:131-135 | a disabled type changes nothing; an enabled type with an empty rolling range throws; otherwise each listed key gets a tombstone in the namespace under the draw |
| ObjectCaching.ObjectCache.GetList | poket-facade/src/main/kotlin/io/github/andresviedma/poket/cache/ObjectCache.kt:73-76 | throws exactly when get throws; otherwise exactly the requested keys for which get with the same draw returns a value, with those values (empty when disabled) |
| ObjectCaching.ObjectCache.GetOrPut | poket-facade/src/main/kotlin/io/github/andresviedma/poket/cache/ObjectCache.kt:143-147 | disabled: the generator's value and no write; empty rolling range: throws, no write; cached under the lookup's draw: the cached value, no write, and regeneration is launched iff the generation time read under its own draw is outdated or missing (lines 175-188), so a generation time missing under that draw, as one written with another draw is, triggers it; missing: the generated value, stored with forceInvalidation false under the draws of the writes |
| ObjectCaching.ObjectCache.Generate | poket-facade/src/main/kotlin/io/github/andresviedma/poket/cache/ObjectCache.kt:208-211 | an empty rolling range throws before the generator runs (the timer builds a namespace); otherwise returns the generator's value and stores it without forcing invalidation |
| ObjectCaching.ObjectCache.GetOrPutBlock | poket-facade/src/main/kotlin/io/github/andresviedma/poket/cache/ObjectCache.kt:155-173 | the generator is called once with exactly the keys uncached under the read's draw, in input order, never when all are cached; the result is the cached values plus the generated ones, which are stored with forceInvalidation false under the write's draw; an empty rolling range throws before the generator; a disabled type only calls the generator with all keys |
| MapCaching.PutEntries | poket-facade/src/main/kotlin/io/github/andresviedma/poket/cache/MapCacheSystem.kt:51-52 | writing entries to one namespace leaves every other namespace unchanged and adds exactly the written keys |
| MapCaching.LookupPutEntries | poket-facade/src/main/kotlin/io/github/andresviedma/poket/cache/MapCacheSystem.kt:39-52 | a written key reads back as the entry written; every other key of every namespace reads as before |
| MapCaching.GetAfterSet | poket-facade/src/main/kotlin/io/github/andresviedma/poket/cache/MapCacheSystem.kt:16-21 | setObject then getObject on the same namespace and key gives the value |
| MapCaching.GetAfterInvalidate | poket-facade/src/main/kotlin/io/github/andresviedma/poket/cache/MapCacheSystem.kt:23-25 | after invalidateObject the key reads as absent and is marked as invalidated |
| MapCaching.UniformEntries | poket-facade/src/main/kotlin/io/github/andresviedma/poket/cache/MapCacheSystem.kt:39-41 | one entry per value, all with the given TTL and invalidation flag |
| MapCaching.TripleEntries | poket-facade/src/main/kotlin/io/github/andresviedma/poket/cache/MapCacheSystem.kt:43-45 | one entry per value with that value's own TTL and invalidation flag |
| MapCaching.TombstoneEntries | poket-facade/src/main/kotlin/io/github/andresviedma/poket/cache/MapCacheSystem.kt:47-49 | one tombstone (no value, TTL 0, invalidation) per listed key |
| MapCaching.Content | poket-facade/src/main/kotlin/io/github/andresviedma/poket/cache/MapCacheSystem.kt:69-71 | exactly the keys that read as a value, with those values; tombstones are left out |
| MapCaching.Found | poket-facade/src/main/kotlin/io/github/andresviedma/poket/cache/MapCacheSystem.kt:28-37 | exactly the requested keys that read as a value, with those values |
| MapCaching.MapCacheSystem.constructor | poket-facade/src/main/kotlin/io/github/andresviedma/poket/cache/MapCacheSystem.kt:10-11 | the store starts empty |
| MapCaching.MapCacheSystem.GetObject | poket-facade/src/main/kotlin/io/github/andresviedma/poket/cache/MapCacheSystem.kt:16-17 | a value is only returned for a key stored in that namespace, and it is the stored value |
| MapCaching.MapCacheSystem.SetObject | poket-facade/src/main/kotlin/io/github/andresviedma/poket/cache/MapCacheSystem.kt:19-21 | the store gains the entry in that namespace and nothing else changes; getObject then returns the value |
| MapCaching.MapCacheSystem.InvalidateObject | poket-facade/src/main/kotlin/io/github/andresviedma/poket/cache/MapCacheSystem.kt:23-25 | the store gains a tombstone for the key; getObject then returns nothing and valueInvalidated is true |
| MapCaching.MapCacheSystem.GetObjectList | poket-facade/src/main/kotlin/io/github/andresviedma/poket/cache/MapCacheSystem.kt:28-37 | the loop builds exactly the map of requested keys holding a value |
| MapCaching.MapCacheSystem.SetObjectList | poket-facade/src/main/kotlin/io/github/andresviedma/poket/cache/MapCacheSystem.kt:39-41 | the store gains one entry per value with the given TTL and flag |
| MapCaching.MapCacheSystem.SetObjectListEntries | poket-facade/src/main/kotlin/io/github/andresviedma/poket/cache/MapCacheSystem.kt:43-45 | the store gains one entry per value with its own TTL and flag |
| MapCaching.MapCacheSystem.InvalidateObjectList | poket-facade/src/main/kotlin/io/github/andresviedma/poket/cache/MapCacheSystem.kt:47-49 | the store gains one tombstone per listed key |
| MapCaching.MapCacheSystem.Clear | poket-facade/src/main/kotlin/io/github/andresviedma/poket/cache/MapCacheSystem.kt:54-56 | the store is empty |
| MapCaching.MapCacheSystem.Contains | poket-facade/src/main/kotlin/io/github/andresviedma/poket/cache/MapCacheSystem.kt:59-61 | a plain write with TTL 0 and no invalidation |
| MapCaching.MapCacheSystem.ValueTtl | poket-facade/src/main/kotlin/io/github/andresviedma/poket/cache/MapCacheSystem.kt:63-64 | a TTL is returned iff the key has an entry in the namespace |
| MapCaching.MapCacheSystem.ValueInvalidated | poket-facade/src/main/kotlin/io/github/andresviedma/poket/cache/MapCacheSystem.kt:66-67 | true only for keys with an entry, so false for absent keys |
| MapCaching.MapCacheSystem.ContentOf | poket-facade/src/main/kotlin/io/github/andresviedma/poket/cache/MapCacheSystem.kt:69-71 | exactly the keys getObject returns a value for |
| ErrorIgnoring.RunOrFail | poket-facade/src/main/kotlin/io/github/andresviedma/poket/cache/decorators/ErrorIgnoreCacheSystem.kt:106-123 | a successful call passes its result through unchanged; an IllegalStateException always escapes; any other error escapes iff the flag is true and is otherwise masked |
| ErrorIgnoring.Attempt | poket-facade/src/main/kotlin/io/github/andresviedma/poket/cache/decorators/ErrorIgnoreCacheSystem.kt:111-112 | the target call succeeds iff it is given no failure |
| ErrorIgnoring.RepairAfterMaskedWrite | poket-facade/src/main/kotlin/io/github/andresviedma/poket/cache/decorators/ErrorIgnoreCacheSystem.kt:34-39 | the repair invalidates iff invalidation is forced, something was written, the read succeeds, the current value is non-null and differs, and the invalidation succeeds; it can only fail when invalidation is forced |
| ErrorIgnoring.MaskedWriteWithoutForce | poket-facade/src/main/kotlin/io/github/andresviedma/poket/cache/decorators/ErrorIgnoreCacheSystem.kt:34-39 | without forceInvalidation a masked write error changes nothing and the write ends normally |
| ErrorIgnoring.ErrorIgnoreCacheSystem.constructor | poket-facade/src/main/kotlin/io/github/andresviedma/poket/cache/decorators/ErrorIgnoreCacheSystem.kt:11-18 | the decorator keeps its target, type, default config and configuration |
| ErrorIgnoring.ErrorIgnoreCacheSystem.GetObject | poket-facade/src/main/kotlin/io/github/andresviedma/poket/cache/decorators/ErrorIgnoreCacheSystem.kt:20-23 | no failure: the target's value; a failure escapes iff failOnGetError or IllegalStateException says so, and a masked one reads as null |
| ErrorIgnoring.ErrorIgnoreCacheSystem.GetObjectList | poket-facade/src/main/kotlin/io/github/andresviedma/poket/cache/decorators/ErrorIgnoreCacheSystem.kt:51-58 | no failure: the target's values; a failure escapes as failOnGetError says; a masked one gives an empty map |
| ErrorIgnoring.ErrorIgnoreCacheSystem.InvalidateObject | poket-facade/src/main/kotlin/io/github/andresviedma/poket/cache/decorators/ErrorIgnoreCacheSystem.kt:45-49 | no failure: the key gets a tombstone; a failure leaves the store unchanged and escapes iff failOnInvalidateError or IllegalStateException says so |
| ErrorIgnoring.ErrorIgnoreCacheSystem.InvalidateObjectList | poket-facade/src/main/kotlin/io/github/andresviedma/poket/cache/decorators/ErrorIgnoreCacheSystem.kt:100-104 | no failure: one tombstone per key; a failure leaves the store unchanged and escapes as failOnInvalidateError says |
| ErrorIgnoring.ErrorIgnoreCacheSystem.SetObject | poket-facade/src/main/kotlin/io/github/andresviedma/poket/cache/decorators/ErrorIgnoreCacheSystem.kt:25-43 | no failure: the entry is written; a failure escapes as failOnPutError says with the store unchanged; a masked one with forceInvalidation invalidates the key iff it holds a different non-null value |
| ErrorIgnoring.ErrorIgnoreCacheSystem.SetObjectList | poket-facade/src/main/kotlin/io/github/andresviedma/poket/cache/decorators/ErrorIgnoreCacheSystem.kt:60-79 | as setObject, the masked-error repair invalidating all written keys iff what they hold is non-empty and differs from the written map |
| ErrorIgnoring.ErrorIgnoreCacheSystem.SetObjectListEntries | poket-facade/src/main/kotlin/io/github/andresviedma/poket/cache/decorators/ErrorIgnoreCacheSystem.kt:81-95 | as setObjectList, the repair running when any entry forces invalidation and invalidating whenever anything is read back |
| CachePending.Replaced | poket-facade/src/main/kotlin/io/github/andresviedma/poket/cache/decorators/ObjectCacheTransactionHandler.kt:45-56 | the replaced key's entry ends the buffer with its new operation |
| CachePending.LastOperationWins | poket-facade/src/main/kotlin/io/github/andresviedma/poket/cache/decorators/ObjectCacheTransactionHandler.kt:45-56 | after a set or invalidation the key holds that operation, every other key keeps its operation, and keys stay distinct: the last write for a (type, namespace, key) wins |
| CachePending.PendingCacheOperations.constructor | poket-facade/src/main/kotlin/io/github/andresviedma/poket/cache/decorators/ObjectCacheTransactionHandler.kt:33-35 | a new buffer is empty |
| CachePending.PendingCacheOperations.AddCacheSet | poket-facade/src/main/kotlin/io/github/andresviedma/poket/cache/decorators/ObjectCacheTransactionHandler.kt:39-48 | the key's earlier entry is removed and the set is appended, keeping one entry per key |
| CachePending.PendingCacheOperations.AddInvalidation | poket-facade/src/main/kotlin/io/github/andresviedma/poket/cache/decorators/ObjectCacheTransactionHandler.kt:50-56 | the key's earlier entry is removed and the null marker is appended, keeping one entry per key |
| CachePending.PendingCacheOperations.DeleteOperation | poket-facade/src/main/kotlin/io/github/andresviedma/poket/cache/decorators/ObjectCacheTransactionHandler.kt:58-60 | only that key's entry is removed |
| CacheTransactionHandler.StartTransaction | poket-facade/src/main/kotlin/io/github/andresviedma/poket/cache/decorators/ObjectCacheTransactionHandler.kt:12-13 | a fresh, empty buffer |
| CacheTransactionHandler.RollbackTransaction | poket-facade/src/main/kotlin/io/github/andresviedma/poket/cache/decorators/ObjectCacheTransactionHandler.kt:29-30 | the buffered writes are dropped with the transaction: the buffer is left as it was and no cache system is touched |
| CacheTransactionHandler.CommitTransaction | poket-facade/src/main/kotlin/io/github/andresviedma/poket/cache/decorators/ObjectCacheTransactionHandler.kt:15-27 | the buffer afterwards holds exactly the operations of types that no used system has; the writes each system makes are stated by its ExecuteTransactionOperations |
| TransactionAwareCaching.SetsValid | poket-facade/src/main/kotlin/com/github/andresviedma/poket/cache/decorators/TransactionAwareCacheSystem.kt:38-45 | buffering a list of sets keeps one entry per key |
| TransactionAwareCaching.SetsBufferOnePerKey | poket-facade/src/main/kotlin/com/github/andresviedma/poket/cache/decorators/TransactionAwareCacheSystem.kt:38-45 | after buffering a list of sets, each listed key holds its own operation and every other key keeps its operation |
| TransactionAwareCaching.InvalidationsValid | poket-facade/src/main/kotlin/com/github/andresviedma/poket/cache/decorators/TransactionAwareCacheSystem.kt:56-63 | buffering a list of invalidations keeps one entry per key |
| TransactionAwareCaching.InOfType | poket-facade/src/main/kotlin/com/github/andresviedma/poket/cache/decorators/TransactionAwareCacheSystem.kt:71-72 | the operations processed are exactly the buffered ones of this cache type |
| TransactionAwareCaching.RemainingOperations | poket-facade/src/main/kotlin/com/github/andresviedma/poket/cache/decorators/TransactionAwareCacheSystem.kt:69-81 | after execution the buffer holds exactly the operations of other types |
| TransactionAwareCaching.GroupingKeepsSets | poket-facade/src/main/kotlin/com/github/andresviedma/poket/cache/decorators/TransactionAwareCacheSystem.kt:74-79 | for one type's operations, a key is set in a namespace's group exactly when, and to what, its set was buffered |
| TransactionAwareCaching.GroupingKeepsInvalidations | poket-facade/src/main/kotlin/com/github/andresviedma/poket/cache/decorators/TransactionAwareCacheSystem.kt:74-79 | a key is in a namespace's invalidation list exactly when its invalidation was buffered |
| TransactionAwareCaching.NamespaceCallsAreIndependent | poket-facade/src/main/kotlin/com/github/andresviedma/poket/cache/decorators/TransactionAwareCacheSystem.kt:107-122 | a buffered set is applied unless the set call fails, whatever the invalidation does; an invalidation of a key not also set is applied unless the invalidation call fails |
| TransactionAwareCaching.TransactionAwareCacheSystem.constructor | poket-facade/src/main/kotlin/com/github/andresviedma/poket/cache/decorators/TransactionAwareCacheSystem.kt:9-12 | the decorator keeps its target and cache type |
| TransactionAwareCaching.TransactionAwareCacheSystem.SetObject | poket-facade/src/main/kotlin/com/github/andresviedma/poket/cache/decorators/TransactionAwareCacheSystem.kt:14-27 | outside a transaction the target gets the write and the buffer is untouched; inside one the target is untouched and the buffer gets the set |
| TransactionAwareCaching.TransactionAwareCacheSystem.InvalidateObject | poket-facade/src/main/kotlin/com/github/andresviedma/poket/cache/decorators/TransactionAwareCacheSystem.kt:29-36 | outside a transaction the target gets a tombstone; inside one the target is untouched and the buffer gets the invalidation |
| TransactionAwareCaching.TransactionAwareCacheSystem.SetObjectList | poket-facade/src/main/kotlin/com/github/andresviedma/poket/cache/decorators/TransactionAwareCacheSystem.kt:38-45 | outside a transaction the target gets every value; inside one the target is untouched and one set per entry is buffered |
| TransactionAwareCaching.TransactionAwareCacheSystem.SetObjectListEntries | poket-facade/src/main/kotlin/com/github/andresviedma/poket/cache/decorators/TransactionAwareCacheSystem.kt:47-54 | as setObjectList, with each entry's own TTL and flag |
| TransactionAwareCaching.TransactionAwareCacheSystem.InvalidateObjectList | poket-facade/src/main/kotlin/com/github/andresviedma/poket/cache/decorators/TransactionAwareCacheSystem.kt:56-63 | outside a transaction the target gets one tombstone per key; inside one the target is untouched and one invalidation per key is buffered |
| TransactionAwareCaching.TransactionAwareCacheSystem.BufferSets | poket-facade/src/main/kotlin/com/github/andresviedma/poket/cache/decorators/TransactionAwareCacheSystem.kt:43 | the forEach loop leaves the buffer as the sets applied in order |
| TransactionAwareCaching.TransactionAwareCacheSystem.ExecuteTransactionOperations | poket-facade/src/main/kotlin/com/github/andresviedma/poket/cache/decorators/TransactionAwareCacheSystem.kt:69-85 | this type's operations leave the buffer, and the target ends as every namespace's group applied in first-seen order |
| TransactionAwareCaching.TransactionAwareCacheSystem.CollectOperations | poket-facade/src/main/kotlin/com/github/andresviedma/poket/cache/decorators/TransactionAwareCacheSystem.kt:70-81 | the first loop groups this type's operations per namespace and deletes exactly them from the buffer |
| TransactionAwareCaching.TransactionAwareCacheSystem.ApplyOperations | poket-facade/src/main/kotlin/com/github/andresviedma/poket/cache/decorators/TransactionAwareCacheSystem.kt:82-84 | the second loop applies every namespace's group in order |
| TransactionAwareCaching.TransactionAwareCacheSystem.ExecuteNamespaceTransactionOperations | poket-facade/src/main/kotlin/com/github/andresviedma/poket/cache/decorators/TransactionAwareCacheSystem.kt:107-122 | invalidations first, then sets, each skipped when empty and left undone on its own when its call fails |
| TransactionAwareCaching.UniformOperations | poket-facade/src/main/kotlin/com/github/andresviedma/poket/cache/decorators/TransactionAwareCacheSystem.kt:43 | one buffered set per entry, in order, with the shared TTL and flag |
| TransactionAwareCaching.TripleOperations | poket-facade/src/main/kotlin/com/github/andresviedma/poket/cache/decorators/TransactionAwareCacheSystem.kt:52 | one buffered set per entry, in order, with the entry's own TTL and flag |
| CacheKeySerializing.TryDecompose | poket-facade/src/main/kotlin/io/github/andresviedma/poket/cache/utils/CacheKeySerializing.kt:22-34 | a non-data value is its only part; a data object gives its components in position order, or itself when it has none |
| CacheKeySerializing.GetComponent | poket-facade/src/main/kotlin/io/github/andresviedma/poket/cache/utils/CacheKeySerializing.kt:36-39 | a component is found exactly for positions 1..N, and it is the value at that position |
| CacheKeySerializing.SimpleKeyToString | poket-facade/src/main/kotlin/io/github/andresviedma/poket/cache/utils/CacheKeySerializing.kt:16-20 | non-collections render as their parts joined with "::"; a collection renders as its items joined with "::", or "-" when that is empty, so never as "" |
| CacheKeySerializing.CacheKeyToString | poket-facade/src/main/kotlin/io/github/andresviedma/poket/cache/utils/CacheKeySerializing.kt:13-14 | a null namespace gives only the key string; otherwise "namespace::key" |
| CacheKeySerializing.SimpleKeySplitsBack | poket-facade/src/main/kotlin/io/github/andresviedma/poket/cache/utils/CacheKeySerializing.kt:16-20 | when no part contains ':', splitting the key string on "::" gives back its parts |
| CacheKeySerializing.NamespacedKeySplitsBack | poket-facade/src/main/kotlin/io/github/andresviedma/poket/cache/utils/CacheKeySerializing.kt:13-14 | a namespace without ':' is the first "::"-piece of the namespaced key |
| CacheKeySerializing.PairKey | poket-facade/src/main/kotlin/io/github/andresviedma/poket/cache/utils/CacheKeySerializing.kt:22-34 | a two-component data object such as a pair renders as "first::second" |
| Transactions.Without | poket-facade/src/main/kotlin/io/github/andresviedma/poket/transaction/TransactionManager.kt:30-31 | the handlers of the first list not in the second, in order and without repeats |
| Transactions.HandlerOrder | poket-facade/src/main/kotlin/io/github/andresviedma/poket/transaction/TransactionManager.kt:30-31 | the handlers are the secondary ones first, then the primary ones not also secondary, each once |
| Transactions.PrimaryHandlersFinishFirst | poket-facade/src/main/kotlin/io/github/andresviedma/poket/transaction/TransactionManager.kt:30-31 | in reverse order every primary-only handler comes before every secondary handler, so primaries commit or roll back first |
| Transactions.FirstFailing | poket-facade/src/main/kotlin/io/github/andresviedma/poket/transaction/TransactionManager.kt:115-124 | the position of the first handler whose start throws: every handler before it starts, and it throws |
| Transactions.CommitFailsIffSomeHandlerFails | poket-facade/src/main/kotlin/io/github/andresviedma/poket/transaction/TransactionManager.kt:162-168 | the commit fails exactly when some handler's commit throws |
| Transactions.BlockReturnsOnlyAfterCommit | poket-facade/src/main/kotlin/io/github/andresviedma/poket/transaction/TransactionManager.kt:46-79 | an outermost block returns normally exactly when every handler starts, the body returns and the commit succeeds, and then it returns the body's value as committed |
| Transactions.CommitsInReverse | poket-facade/src/main/kotlin/io/github/andresviedma/poket/transaction/TransactionManager.kt:162-168 | commits go from the last handler started to the first, and all of them commit when none fails |
| Transactions.DataGoesBackToItsHandler | poket-facade/src/main/kotlin/io/github/andresviedma/poket/transaction/TransactionManager.kt:141-168 | every commit and rollback call is given the data that handler's start returned |
| Transactions.StartFailureRollsBackOnlyStarted | poket-facade/src/main/kotlin/io/github/andresviedma/poket/transaction/TransactionManager.kt:121-124 | when a handler fails to start, exactly the handlers started before it roll back, no later handler starts, and its exception propagates |
| Transactions.StartThenRollback | poket-facade/src/main/kotlin/io/github/andresviedma/poket/transaction/TransactionManager.kt:141-158 | a run of starts followed by rollbacks touches exactly the handlers it lists |
| Transactions.HooksOnlyAfterCommit | poket-facade/src/main/kotlin/io/github/andresviedma/poket/transaction/TransactionManager.kt:68-77 | a block counts as committed, so that its hooks run, only if every handler started and none rolled back |
| Transactions.CommittedAfterLastRoundSucceeds | poket-facade/src/main/kotlin/io/github/andresviedma/poket/transaction/TransactionManager.kt:50-67 | a block counts as committed exactly when its last round of commits succeeded: the first, after a body that returned or threw a non-rollback exception, or the catch's second round after a first round that failed with a non-rollback exception; it then made only commit calls |
| Transactions.BodyRollbackException | poket-facade/src/main/kotlin/io/github/andresviedma/poket/transaction/TransactionManager.kt:58-62 | a rollback exception from the body rolls every handler back, most recent first, and is rethrown; with default metadata every exception is one |
| Transactions.BodyOtherException | poket-facade/src/main/kotlin/io/github/andresviedma/poket/transaction/TransactionManager.kt:58-67 | any other exception from the body commits every handler, counts as committed and is rethrown |
| Transactions.CommitFailureRollsBackEverything | poket-facade/src/main/kotlin/io/github/andresviedma/poket/transaction/TransactionManager.kt:51-61 | a failing commit falls into the catch: as a rollback exception it rolls back every handler, those already committed included |
| Transactions.CommitFailureCommitsAgain | poket-facade/src/main/kotlin/io/github/andresviedma/poket/transaction/TransactionManager.kt:51-67 | a failing commit whose exception is not a rollback exception commits the handlers again from the last one, with that round's own failures: if the second round succeeds the block counts as committed and the first commit exception is rethrown; if it fails, its exception propagates and the block is not committed |
| Transactions.RunHooks | poket-facade/src/main/kotlin/io/github/andresviedma/poket/transaction/TransactionManager.kt:178-182 | the hooks run in order up to and including the first that throws, whose exception is the result; without one every hook runs |
| Transactions.ThrowingHookStopsTheRest | poket-facade/src/main/kotlin/io/github/andresviedma/poket/transaction/TransactionManager.kt:178-182 | every hook runs exactly when none throws; otherwise the last hook run is the first that throws, it gives the exception, and no earlier hook threw |
| Transactions.RunEach | poket-facade/src/main/kotlin/io/github/andresviedma/poket/transaction/TransactionManager.kt:178-182 | the loop runs the hooks in order and stops after the first that throws: the hooks it ran and the failure it reports are those RunHooks specifies |
| Transactions.TransactionManager.constructor | poket-facade/src/main/kotlin/io/github/andresviedma/poket/transaction/TransactionManager.kt:22-31 | the handlers are ordered secondary then primary, with no context and no calls yet |
| Transactions.TransactionManager.ForceRollbackAfterHandler | poket-facade/src/main/kotlin/io/github/andresviedma/poket/transaction/TransactionManager.kt:141-160 | handlers up to and including the ignored one are skipped; each other started handler rolls back most recent first with its own data, whatever the rollbacks throw; the context is cleared |
| Transactions.TransactionManager.StartOrJoin | poket-facade/src/main/kotlin/io/github/andresviedma/poket/transaction/TransactionManager.kt:105-128 | inside a transaction it only joins; otherwise all handlers start in order with a fresh hook register, or the first failing start rolls back those started and its exception propagates |
| Transactions.TransactionManager.Commit | poket-facade/src/main/kotlin/io/github/andresviedma/poket/transaction/TransactionManager.kt:162-176 | handlers commit last started first, each with its own data; the first failure stops the commit and is returned |
| Transactions.TransactionManager.RunActionsAfterTransaction | poket-facade/src/main/kotlin/io/github/andresviedma/poket/transaction/TransactionManager.kt:178-182 | the register's hooks run in order only on commit, until one throws: every hook before it runs, no later hook runs and its exception is returned; the register is emptied either way |
| Transactions.TransactionManager.RegisterHooks | poket-facade/src/main/kotlin/io/github/andresviedma/poket/transaction/TransactionManager.kt:58-67 | the body's hooks go to the current register while in a transaction, or run at once without a register |
| Transactions.TransactionManager.TryCommit | poket-facade/src/main/kotlin/io/github/andresviedma/poket/transaction/TransactionManager.kt:51-67 | after a started transaction the handler calls, outcome and commit flag are those of the specification: a commit after a returning body, and the catch of the body's or the first commit's exception, whose commit is a second round with its own failures |
| Transactions.TransactionManager.CatchBody | poket-facade/src/main/kotlin/io/github/andresviedma/poket/transaction/TransactionManager.kt:58-67 | the catch of a block that started its transaction ends as the catch specification says: rollback for a rollback exception, otherwise commit |
| Transactions.TransactionManager.Complete | poket-facade/src/main/kotlin/io/github/andresviedma/poket/transaction/TransactionManager.kt:50-79 | a joined block passes the body's outcome on; a block that started the transaction commits or rolls back, runs the hooks only on commit, and drops the context even when a hook throws, whose exception then replaces the block's value or exception |
| Transactions.TransactionManager.TransactionalBlock | poket-facade/src/main/kotlin/io/github/andresviedma/poket/transaction/TransactionManager.kt:46-79 | a nested block joins: no handler is called, its outcome passes through and its hooks join the outer register; an outermost block ends as the outermost specification, runs its hooks only on commit, lets a throwing hook's exception replace its outcome and leaves no context |
| Transactions.TransactionManager.JoinedBlock | poket-facade/src/main/kotlin/io/github/andresviedma/poket/transaction/TransactionManager.kt:105-128 | a block inside a transaction calls no handler, passes its outcome through and adds its hooks to the current register |
| Transactions.TransactionManager.OutermostTransactionalBlock | poket-facade/src/main/kotlin/io/github/andresviedma/poket/transaction/TransactionManager.kt:46-79 | a block outside a transaction either fails to start (started handlers rolled back, no hooks run) or runs the body, commits or rolls back, and runs its hooks only on commit, a throwing hook stopping the rest and replacing the outcome |
| Transactions.TransactionManager.RunStartedHere | poket-facade/src/main/kotlin/io/github/andresviedma/poket/transaction/TransactionManager.kt:51-77 | after a successful start the body's hooks are registered and the block completes as the specification says, hooks and their exception included, leaving no context |
| Transactions.TransactionManager.RunJoined | poket-facade/src/main/kotlin/io/github/andresviedma/poket/transaction/TransactionManager.kt:51-77 | in a joined block the hooks go to the current register and the body's outcome passes through unchanged |
| Transactions.TransactionManager.Transactional | poket-facade/src/main/kotlin/io/github/andresviedma/poket/transaction/TransactionManager.kt:36-39 | joins the current transaction, or runs the block in a new context, with the outermost handler calls, hook run and outcome, after which the previous context is back |
| Transactions.TransactionManager.TransactionalNew | poket-facade/src/main/kotlin/io/github/andresviedma/poket/transaction/TransactionManager.kt:41-44 | always a new transaction in a new context, even inside another one, with the outermost handler calls, hook run and outcome; the previous context is back afterwards |
| Transactions.TransactionManager.BlockingTransactional | poket-facade/src/main/kotlin/io/github/andresviedma/poket/transaction/TransactionManager.kt:81-85 | as transactional, with a new context set when none is open and not taken back: it is cleared afterwards, or left cleared but present when a handler fails to start |
| Transactions.NestedBlockHooksRunAfterOuterCommit | poket-facade/src/test/kotlin/io/github/andresviedma/poket/transaction/utils/TransactionHooksTest.kt:67-91 | a nested block's hook runs after the outer block commits, after the outer block's own hook |
| RollbackRules.EmptySetsRollBackEverything | poket-facade/src/main/kotlin/io/github/andresviedma/poket/transaction/TransactionMetadata.kt:15-17 | with both sets empty every exception rolls back |
| RollbackRules.DontRollbackOnWins | poket-facade/src/main/kotlin/io/github/andresviedma/poket/transaction/TransactionMetadata.kt:15-20 | an exception that is an instance of a dontRollbackOn class never rolls back, whatever rollbackOn says |
| RollbackRules.RollbackOnSelects | poket-facade/src/main/kotlin/io/github/andresviedma/poket/transaction/TransactionMetadata.kt:15-20 | with rollbackOn non-empty, an exception rolls back iff it is an instance of some rollbackOn class and of no dontRollbackOn class |
| RollbackRules.TransactionMetadata.IsRollbackException | poket-facade/src/main/kotlin/io/github/andresviedma/poket/transaction/TransactionMetadata.kt:15-20 | an exception that rolls back is an instance of no dontRollbackOn class; with rollbackOn empty, exactly the exceptions outside dontRollbackOn roll back |
| TransactionHooks.TransactionHookRegister.constructor | poket-facade/src/main/kotlin/com/github/andresviedma/poket/transaction/TransactionHooks.kt:11-12 | a new register holds no hook |
| TransactionHooks.TransactionHookRegister.AddOnTransactionCommitHook | poket-facade/src/main/kotlin/com/github/andresviedma/poket/transaction/TransactionHooks.kt:14-18 | the hook is appended only while in a transaction; otherwise the register is unchanged |
| TransactionHooks.TransactionHookRegister.ClearTransactionHooks | poket-facade/src/main/kotlin/com/github/andresviedma/poket/transaction/TransactionHooks.kt:20-22 | on commit all hooks in registration order, otherwise none; the register is emptied either way |
| TransactionHooks.RunAfterTransactionCommit | poket-facade/src/main/kotlin/com/github/andresviedma/poket/transaction/TransactionHooks.kt:5-9 | with a register the action is registered (while in a transaction) and not run now; without one it runs at once |
| UndoRegisters.UndoRegister.constructor | poket-facade/src/main/kotlin/io/github/andresviedma/poket/transaction/utils/Sagas.kt:51-52 | a new register holds no undo (likewise UndoableActions.kt:47-48) |
| UndoRegisters.UndoRegister.AddUndo | poket-facade/src/main/kotlin/io/github/andresviedma/poket/transaction/utils/Sagas.kt:54-58 | the undo is appended only while in a transaction (likewise UndoableActions.kt:50-54) |
| UndoRegisters.UndoRegister.Clear | poket-facade/src/main/kotlin/io/github/andresviedma/poket/transaction/utils/Sagas.kt:60-62 | returns the registered undoes in order and leaves the register empty (likewise UndoableActions.kt:56-58) |
| UndoRegisters.Undoable | poket-facade/src/main/kotlin/io/github/andresviedma/poket/transaction/utils/Sagas.kt:24-26 | the action's outcome is returned; an undo with the result is registered only after the action finishes and only in a transaction (likewise undoable, UndoableActions.kt:21-23) |
| UndoRegisters.UndoableEvenIfNotFinished | poket-facade/src/main/kotlin/io/github/andresviedma/poket/transaction/utils/Sagas.kt:38-45 | as sagaOperation, but an action that throws registers its undo with null before the exception propagates (likewise UndoableActions.kt:34-41) |
| UndoRegisters.StartTransaction | poket-facade/src/main/kotlin/io/github/andresviedma/poket/transaction/utils/Sagas.kt:86-87 | a fresh, empty register (likewise UndoableActions.kt:82-83) |
| UndoRegisters.CommitTransaction | poket-facade/src/main/kotlin/io/github/andresviedma/poket/transaction/utils/Sagas.kt:68-72 | the register is emptied without running any undo (likewise UndoableActions.kt:64-68) |
| UndoRegisters.RollbackTransaction | poket-facade/src/main/kotlin/io/github/andresviedma/poket/transaction/utils/Sagas.kt:74-84 | every registered undo runs, most recent first, failing ones included, and the register is emptied (likewise UndoableActions.kt:70-80) |
| UndoRegisters.ThirdOperationFails | poket-facade/src/test/kotlin/io/github/andresviedma/poket/transaction/utils/SagasTest.kt:84-101 | three operations with the third throwing: rollback runs undo 2, then undo 1 |
| DistributedMutexes.LockWaitTimedOut | poket-facade/src/main/kotlin/io/github/andresviedma/poket/mutex/DistributedMutex.kt:130-133 | the timeout error is a LockWaitTimedOutException and a RuntimeException |
| DistributedMutexes.GetLockSystem | poket-facade/src/main/kotlin/io/github/andresviedma/poket/mutex/DistributedMutex.kt:23 | a lock system is found exactly for a registered id; an unknown id fails |
| DistributedMutexes.LockName | poket-facade/src/main/kotlin/io/github/andresviedma/poket/mutex/DistributedMutex.kt:65-66 | the lock name starts with the type |
| DistributedMutexes.LockNameSplitsBack | poket-facade/src/main/kotlin/io/github/andresviedma/poket/mutex/DistributedMutex.kt:65-66 | when neither type nor keys contain ':', splitting the name on "::" gives the type followed by the keys |
| DistributedMutexes.DistributedMutex.GetLockHandlingErrors | poket-facade/src/main/kotlin/io/github/andresviedma/poket/mutex/DistributedMutex.kt:88-121 | the first lock system asked is the configured one; a second one is asked only if it is the fallback and differs from the first, so recursion is at most one level; a granting system is one of those asked |
| DistributedMutexes.DistributedMutex.ReleaseLock | poket-facade/src/main/kotlin/io/github/andresviedma/poket/mutex/DistributedMutex.kt:68-86 | a release is attempted exactly when the lock is held and a lock system granted it, and on that system |
| DistributedMutexes.DistributedMutex.Synchronized | poket-facade/src/main/kotlin/io/github/andresviedma/poket/mutex/DistributedMutex.kt:21-40 | when the block runs, the result is the block's outcome or an exception (from the release) |
| DistributedMutexes.SynchronizedRunsBlockIff | poket-facade/src/main/kotlin/io/github/andresviedma/poket/mutex/DistributedMutex.kt:21-40 | the block runs exactly when the lock system is known, the lock request does not throw, and the lock was obtained or errors are force-ignored |
| DistributedMutexes.TimedOutWithoutLock | poket-facade/src/main/kotlin/io/github/andresviedma/poket/mutex/DistributedMutex.kt:32-34 | without the lock and errors not force-ignored, synchronized throws LockWaitTimedOutException and skips the block |
| DistributedMutexes.FailAndGetActions | poket-facade/src/main/kotlin/io/github/andresviedma/poket/mutex/DistributedMutex.kt:97-107 | FAIL or no action rethrows the lock system's exception after asking only that system; GET reports the lock held with no lock system |
| DistributedMutexes.FallbackAction | poket-facade/src/main/kotlin/io/github/andresviedma/poket/mutex/DistributedMutex.kt:108-119 | FALLBACK asks the fallback exactly when it is set, differs from the failing system and is registered, and then ends as that request; with no distinct fallback it rethrows |
| DistributedMutexes.ForceIgnoreActsAsGet | poket-facade/src/main/kotlin/io/github/andresviedma/poket/mutex/DistributedMutex.kt:97 | with errors force-ignored, acquisition errors are handled as GET whatever is configured |
| DistributedMutexes.ForceIgnoringErrorsRunsBlock | poket-facade/src/main/kotlin/io/github/andresviedma/poket/mutex/DistributedMutex.kt:21-40 | with errors force-ignored and a known lock system, synchronized always runs the block and returns its outcome |
| DistributedMutexes.ReleaseOnGrantingSystem | poket-facade/src/main/kotlin/io/github/andresviedma/poket/mutex/DistributedMutex.kt:68-69 | a release happens only after the block ran with the lock held, on the lock system that granted it |
| DistributedMutexes.ReleaseErrorPropagation | poket-facade/src/main/kotlin/io/github/andresviedma/poket/mutex/DistributedMutex.kt:72-83 | a failing release propagates exactly when errors are not force-ignored and failOnLockReleaseError is true |
| DistributedMutexes.MaybeSynchronizedTellsLock | poket-facade/src/main/kotlin/io/github/andresviedma/poket/mutex/DistributedMutex.kt:42-54 | the block runs exactly when the lock request ends without error, is told whether the lock was obtained, and its outcome is returned unless the release throws |
| DistributedMutexes.DistributedMutex.MaybeSynchronized | poket-facade/src/main/kotlin/io/github/andresviedma/poket/mutex/DistributedMutex.kt:42-54 | when the block runs the lock request ended without error, and the result is the block's outcome for the lock flag obtained unless the release throws; a release is attempted only after the block ran with the lock, on the lock system that granted it |
| DistributedMutexes.IfSynchronizedWithoutLock | poket-facade/src/main/kotlin/io/github/andresviedma/poket/mutex/DistributedMutex.kt:56-63 | without the lock, ifSynchronized returns null and releases nothing |
| DistributedMutexes.IfSynchronizedWithLock | poket-facade/src/main/kotlin/io/github/andresviedma/poket/mutex/DistributedMutex.kt:56-63 | with the lock, ifSynchronized returns the block's value unless the release throws |
| DistributedMutexes.DistributedMutex.IfSynchronized | poket-facade/src/main/kotlin/io/github/andresviedma/poket/mutex/DistributedMutex.kt:56-63 | a value comes back only when the lock was obtained and the block ran, and it is the block's value; with the lock, a block that throws makes the call throw |
| ConfigSources.AssociateByClass | poket-facade/src/main/kotlin/io/github/andresviedma/poket/config/utils/ConstantConfigSource.kt:20 | a class is stored exactly when some given object has it, and the object stored for a class is one of the given objects of that class |
| ConfigSources.LastOfClassIsKept | poket-facade/src/main/kotlin/io/github/andresviedma/poket/config/utils/ConstantConfigSource.kt:20 | the object kept for a class is the last given object of that class |
| ConfigSources.ConstantConfigSource.constructor | poket-facade/src/main/kotlin/io/github/andresviedma/poket/config/utils/ConstantConfigSource.kt:12-20 | the stored objects are the given ones associated by class; the reload configuration and priority are kept |
| ConfigSources.ConstantConfigSource.GetConfigObject | poket-facade/src/main/kotlin/io/github/andresviedma/poket/config/utils/ConstantConfigSource.kt:30-32 | an object is returned exactly when one is stored for the class, and it is of that class |
| ConfigSources.ConstantConfigSource.GetConfig | poket-facade/src/main/kotlin/io/github/andresviedma/poket/config/utils/ConstantConfigSource.kt:27-28 | the stored object of the class wins; without one the configuration from earlier sources passes through |
| ConfigSources.ConstantConfigSource.Override | poket-facade/src/main/kotlin/io/github/andresviedma/poket/config/utils/ConstantConfigSource.kt:34-41 | only the entry of the object's class changes, to the object |
| ConfigSources.ConstantConfigSource.OverrideWith | poket-facade/src/main/kotlin/io/github/andresviedma/poket/config/utils/ConstantConfigSource.kt:43-46 | the stored object, transformed by the block, is stored under its class; with nothing stored nothing changes |
| ConfigSources.ConstantConfigSource.Reset | poket-facade/src/main/kotlin/io/github/andresviedma/poket/config/utils/ConstantConfigSource.kt:48-51 | no object is stored afterwards |
| ConfigProviders.SortByPriority | poket-facade/src/main/kotlin/io/github/andresviedma/poket/config/ConfigProvider.kt:27 | the sources are ordered by ascending priority and are a permutation of the given ones |
| ConfigProviders.SortTwoSources | poket-facade/src/main/kotlin/io/github/andresviedma/poket/config/ConfigProvider.kt:27 | two sources given in descending priority end up in ascending order |
| ConfigProviders.FetchFromNoSource | poket-facade/src/main/kotlin/io/github/andresviedma/poket/config/ConfigProvider.kt:88-91 | when no source stores the class, the fold gives back its start value |
| ConfigProviders.FetchFromLastSource | poket-facade/src/main/kotlin/io/github/andresviedma/poket/config/ConfigProvider.kt:88-91 | the fold gives the object of the last source that stores the class |
| ConfigProviders.FetchFrom | poket-facade/src/main/kotlin/io/github/andresviedma/poket/config/ConfigProvider.kt:88-91 | once a configuration is found the fold never loses it, and when the last source stores the class its object is the result |
| ConfigProviders.NotConfigured | poket-facade/src/main/kotlin/io/github/andresviedma/poket/config/ConfigProvider.kt:93 | a class no source configures is an IllegalStateException |
| ConfigProviders.AfterReload | poket-facade/src/main/kotlin/io/github/andresviedma/poket/config/ConfigProvider.kt:107-118 | the reload check changes no source's presence in the load times |
| ConfigProviders.AfterReloadTimes | poket-facade/src/main/kotlin/io/github/andresviedma/poket/config/ConfigProvider.kt:110-114 | a source's load time becomes now exactly when it was checked and due (a reload time set, loaded before, more than that time elapsed); otherwise it is kept |
| ConfigProviders.ReloadStep | poket-facade/src/main/kotlin/io/github/andresviedma/poket/config/ConfigProvider.kt:109-118 | checking one more source changes at most its own load time, and something changed exactly when it changed before or that source is due and reports a change |
| ConfigProviders.ConfigProvider.constructor | poket-facade/src/main/kotlin/io/github/andresviedma/poket/config/ConfigProvider.kt:24-31 | the sources are the given ones sorted by priority and stay distinct; nothing is cached, warmed up or loaded yet |
| ConfigProviders.ConfigProvider.Warmup | poket-facade/src/main/kotlin/io/github/andresviedma/poket/config/ConfigProvider.kt:36-44 | the first call records now as every source's load time; later calls change nothing; the cache is untouched |
| ConfigProviders.ConfigProvider.FetchConfig | poket-facade/src/main/kotlin/io/github/andresviedma/poket/config/ConfigProvider.kt:88-94 | the fold over the sources is returned and cached; when it gives nothing the call throws and nothing is cached |
| ConfigProviders.ConfigProvider.GetConfig | poket-facade/src/main/kotlin/io/github/andresviedma/poket/config/ConfigProvider.kt:53-59 | warms up; a cached value is returned unchanged; otherwise the value is fetched and cached, or the call throws when no source configures the class |
| ConfigProviders.ConfigProvider.ConstantSource | poket-facade/src/main/kotlin/io/github/andresviedma/poket/config/ConfigProvider.kt:80-81 | the constant source found is the first source, when there is one |
| ConfigProviders.ConfigProvider.Override | poket-facade/src/main/kotlin/io/github/andresviedma/poket/config/ConfigProvider.kt:71-73 | the object replaces its class's entry in the constant source and the cache is cleared, even with no constant source |
| ConfigProviders.ConfigProvider.OverrideWith | poket-facade/src/main/kotlin/io/github/andresviedma/poket/config/ConfigProvider.kt:75-77 | the stored object, transformed by the block, replaces its class's entry; the cache is cleared in every case |
| ConfigProviders.ConfigProvider.ReloadOutdatedConfigSources | poket-facade/src/main/kotlin/io/github/andresviedma/poket/config/ConfigProvider.kt:107-120 | each due source gets now as its load time, the others keep theirs, and the cache is cleared exactly when a due source reports a change |
| ConfigProviders.CachedValueOutlivesSourceChange | poket-facade/src/test/kotlin/io/github/andresviedma/poket/config/ConfigProviderTest.kt:109-124 | a value once read stays cached after a source that does not reload is overridden |
| ConfigProviders.HigherPriorityWins | poket-facade/src/main/kotlin/io/github/andresviedma/poket/config/ConfigProvider.kt:27-28 | the object of the source with higher priority is the one returned |
| PropertyTrees.PropertyPath | poket-facade/src/main/kotlin/io/github/andresviedma/poket/config/propertytree/ConfigPropertyTree.kt:148-151 | a property name always gives a key of at least one part, so the key is never null |
| PropertyTrees.PropertyPathOfDottedName | poket-facade/src/main/kotlin/io/github/andresviedma/poket/config/propertytree/ConfigPropertyTree.kt:148-151 | a dotted name made of plain parts (non-empty, no dot, no whitespace at their ends) is read back as exactly those parts |
| Strings.UnicodeSpacesAreTrimmed | poket-facade/src/main/kotlin/io/github/andresviedma/poket/config/propertytree/ConfigPropertyTree.kt:149 | `trim` strips Unicode spaces and separators (ideographic space, em space, line separator) as well as ASCII ones |
| Numbers.OtherScriptDigitsParse | poket-facade/src/main/kotlin/io/github/andresviedma/poket/config/propertytree/ConfigPropertyTree.kt:87 | `Integer.parseUnsignedInt` reads fullwidth and Arabic-Indic digits, with an optional `+`, as their decimal values |
| PropertyTrees.ChildTree | poket-facade/src/main/kotlin/io/github/andresviedma/poket/config/propertytree/ConfigPropertyTree.kt:78-79 | a child is returned exactly when the key holds a tree, and it is that tree |
| PropertyTrees.EmptyTreeHoldsNothing | poket-facade/src/main/kotlin/io/github/andresviedma/poket/config/propertytree/ConfigPropertyTree.kt:101-109 | an empty tree holds nothing at any property |
| PropertyTrees.SubtreeNode | poket-facade/src/main/kotlin/io/github/andresviedma/poket/config/propertytree/ConfigPropertyTree.kt:72-73 | a subtree is returned exactly when the node at the property is a tree, and it is that tree |
| PropertyTrees.PropertyIsSet | poket-facade/src/main/kotlin/io/github/andresviedma/poket/config/propertytree/ConfigPropertyTree.kt:15-19 | after addProperty the property holds the value, whatever was on its way before |
| PropertyTrees.PropertyPrunesBelow | poket-facade/src/main/kotlin/io/github/andresviedma/poket/config/propertytree/ConfigPropertyTree.kt:59-61 | after addProperty nothing is found below the property: a value replaces the subtree that was there |
| PropertyTrees.PropertyLeavesOtherPaths | poket-facade/src/main/kotlin/io/github/andresviedma/poket/config/propertytree/ConfigPropertyTree.kt:111-119 | addProperty leaves every property that branches off its path unchanged |
| PropertyTrees.WithPropertyKeepsDistinct | poket-facade/src/main/kotlin/io/github/andresviedma/poket/config/propertytree/ConfigPropertyTree.kt:15-19 | addProperty keeps the child keys of every tree distinct |
| PropertyTrees.ItemsToNodes | poket-facade/src/main/kotlin/io/github/andresviedma/poket/config/propertytree/ConfigPropertyTree.kt:45-46 | nulls are dropped from a list, so it never grows |
| PropertyTrees.ToNode | poket-facade/src/main/kotlin/io/github/andresviedma/poket/config/propertytree/ConfigPropertyTree.kt:37-49 | a map becomes a tree, a list a list and any other value a value node holding it; trees and lists never have more children than the raw map or list had entries |
| PropertyTrees.MergeEntryGet | poket-facade/src/main/kotlin/io/github/andresviedma/poket/config/propertytree/ConfigPropertyTree.kt:22-32 | one raw entry removes its key for null, merges a map into the child tree (a new one when the child is missing or not a tree), and otherwise replaces the child; no other key changes |
| PropertyTrees.MergeRawGet | poket-facade/src/main/kotlin/io/github/andresviedma/poket/config/propertytree/ConfigPropertyTree.kt:21-35 | addRawMap keeps the keys distinct, sets every key of the raw map as one entry would, and leaves every other key as it was |
| PropertyTrees.ToRaw | poket-facade/src/main/kotlin/io/github/andresviedma/poket/config/propertytree/ConfigPropertyTree.kt:86-93 | a node never renders as null |
| PropertyTrees.ChildrenToRawShape | poket-facade/src/main/kotlin/io/github/andresviedma/poket/config/propertytree/ConfigPropertyTree.kt:98-99 | the raw map has one entry per child, same key, same order, holding the child's raw form; it fails exactly when some child's raw form fails |
| PropertyTrees.ToRawMapKeys | poket-facade/src/main/kotlin/io/github/andresviedma/poket/config/propertytree/ConfigPropertyTree.kt:98-99 | the raw map keeps the tree's keys, so they stay distinct |
| PropertyTrees.TreeOfIndexesIsList | poket-facade/src/main/kotlin/io/github/andresviedma/poket/config/propertytree/ConfigPropertyTree.kt:88-90 | a tree whose keys all read as Int indexes renders as the list of its children's raw forms, sorted by index and a permutation of the raw map |
| PropertyTrees.TreeWithNameIsMap | poket-facade/src/main/kotlin/io/github/andresviedma/poket/config/propertytree/ConfigPropertyTree.kt:88-93 | a tree with a key that is not an unsigned integer renders as its raw map |
| PropertyTrees.LargeIndexThrows | poket-facade/src/main/kotlin/io/github/andresviedma/poket/config/propertytree/ConfigPropertyTree.kt:89 | with two index keys or more, one above 2^31 - 1 makes the rendering throw NumberFormatException |
| PropertyTrees.IndexKeysRenderAsList | poket-facade/src/main/kotlin/io/github/andresviedma/poket/config/propertytree/ConfigPropertyTree.kt:88-90 | children keyed "1" then "0" render as the list of the "0" value then the "1" value |
| PropertyTrees.PropertyToRaw | poket-facade/src/main/kotlin/io/github/andresviedma/poket/config/propertytree/ConfigPropertyTree.kt:95-96 | the result is null exactly when no node is at the property |
| PropertyTrees.OverriddenChildren | poket-facade/src/main/kotlin/io/github/andresviedma/poket/config/propertytree/ConfigPropertyTree.kt:63-64 | with no override the tree itself is returned |
| PropertyTrees.OverrideByKey | poket-facade/src/main/kotlin/io/github/andresviedma/poket/config/propertytree/ConfigPropertyTree.kt:63-64 | overriding keeps every key the override lacks, merges in the raw form of every node it has, and a value in the override replaces what was there |
| PropertyTrees.RawMapGet | poket-facade/src/main/kotlin/io/github/andresviedma/poket/config/propertytree/ConfigPropertyTree.kt:98-99 | the raw map has exactly the tree's keys and holds under each the raw form of that child |
| PropertyTrees.PropertyInEmptyTreeNests | poket-facade/src/main/kotlin/io/github/andresviedma/poket/config/propertytree/ConfigPropertyTree.kt:15-19 | a property added to an empty tree renders as one nested map per part, when no part reads as an index |
| PropertyTrees.PropertyTree.constructor | poket-facade/src/main/kotlin/io/github/andresviedma/poket/config/propertytree/ConfigPropertyTree.kt:8-10 | a new tree has no children |
| PropertyTrees.PropertyTree.AddProperty | poket-facade/src/main/kotlin/io/github/andresviedma/poket/config/propertytree/ConfigPropertyTree.kt:15-19 | the children become the old ones with the property's path set to the value; keys stay distinct |
| PropertyTrees.PropertyTree.AddProperties | poket-facade/src/main/kotlin/io/github/andresviedma/poket/config/propertytree/ConfigPropertyTree.kt:11-13 | the properties are added one after the other, in order |
| PropertyTrees.PropertyTree.SetValue | poket-facade/src/main/kotlin/io/github/andresviedma/poket/config/propertytree/ConfigPropertyTree.kt:59-61 | the key's child becomes the value and no other key changes |
| PropertyTrees.PropertyTree.AddRawMap | poket-facade/src/main/kotlin/io/github/andresviedma/poket/config/propertytree/ConfigPropertyTree.kt:21-35 | the children become the old ones with the raw map merged in |
| PropertyTrees.PropertyTree.AddRawMaps | poket-facade/src/main/kotlin/io/github/andresviedma/poket/config/propertytree/ConfigPropertyTree.kt:51-57 | the raw maps are merged one after the other, in order |
| PropertyTrees.PropertyTree.OverriddenWith | poket-facade/src/main/kotlin/io/github/andresviedma/poket/config/propertytree/ConfigPropertyTree.kt:63-64 | with no override the same tree is returned; otherwise a new tree with the override's raw map merged into a copy, failing exactly when rendering the override fails |
| PropertyTrees.PrefixValueExample | poket-facade/src/test/kotlin/io/github/andresviedma/poket/config/propertytree/TreeNodeTest.kt:72-84 | setting a.b after a.b.c gives the same tree as setting a.b alone |
| PropertyTrees.DeeperPathExample | poket-facade/src/test/kotlin/io/github/andresviedma/poket/config/propertytree/TreeNodeTest.kt:86-100 | setting a.b.c after a.b gives the same tree as setting a.b.c alone |
| PropertyTrees.ComposedPathOverriddenWithValue | poket-facade/src/test/kotlin/io/github/andresviedma/poket/config/propertytree/TreeNodeTest.kt:72-84 | a.b.c = hello then a.b = bye renders as a map a holding b = bye |
| PropertyTrees.ValueOverriddenWithComposedPath | poket-facade/src/test/kotlin/io/github/andresviedma/poket/config/propertytree/TreeNodeTest.kt:86-100 | a.b = bye then a.b.c = hello renders as nested maps a, b, c = hello |
| PropertyTrees.ImplicitListExample | poket-facade/src/test/kotlin/io/github/andresviedma/poket/config/propertytree/TreeNodeTest.kt:185-234 | a raw map w with keys "1" and "0" merged into an empty tree renders w as the list zero, one |
| PropertyTrees.MapWithImplicitList | poket-facade/src/test/kotlin/io/github/andresviedma/poket/config/propertytree/TreeNodeTest.kt:185-234 | a map whose keys are indexes reads back as a list in index order |
| RetryProfileConfiguration.RetryPolicyConfig.EffectiveRetries | poket-facade/src/main/kotlin/io/github/andresviedma/poket/utils/retry/RetryProfileConfig.kt:31 | the retries in effect are the configured ones when enabled and none otherwise |
| RetryProfileConfiguration.RetryPolicyConfig.MaxRetries | poket-facade/src/main/kotlin/io/github/andresviedma/poket/utils/retry/RetryProfileConfig.kt:30-31 | the number of retries is that of the configured delays when enabled and zero when disabled |
| RetryProfileConfiguration.ProfileSubparts | poket-facade/src/main/kotlin/io/github/andresviedma/poket/utils/retry/RetryProfileConfig.kt:17-21 | there is one candidate per "."-separated part, the i-th being the first n - i parts joined with ".", so the full profile comes first |
| RetryProfileConfiguration.FirstDefined | poket-facade/src/main/kotlin/io/github/andresviedma/poket/utils/retry/RetryProfileConfig.kt:14 | the first name with an entry gives the result; none exactly when no name has an entry |
| RetryProfileConfiguration.RetryProfileConfig.GetProfileConfig | poket-facade/src/main/kotlin/io/github/andresviedma/poket/utils/retry/RetryProfileConfig.kt:13-15 | no profile gives the default; otherwise the entry of the most specific "."-prefix that has one, or the default when none has |
| RetryProfileConfiguration.ExactProfileWins | poket-facade/src/test/kotlin/io/github/andresviedma/poket/utils/retry/RetryProfileConfigTest.kt:11-20 | an entry for the full profile name is always the one returned |
| RetryProfileConfiguration.NoProfilesGiveDefault | poket-facade/src/main/kotlin/io/github/andresviedma/poket/utils/retry/RetryProfileConfig.kt:13-15 | with no profile entries every profile gets the default |
| RetryHandling.AcceptedStep | poket-facade/src/main/kotlin/io/github/andresviedma/poket/utils/retry/RetryHandler.kt:65-66 | the accepted attempt is the first one not flagged as an error, or the last allowed one; it is never beyond maxRetries |
| RetryHandling.Run | poket-facade/src/main/kotlin/io/github/andresviedma/poket/utils/retry/RetryHandler.kt:40-63 | the block runs at most maxRetries + 1 times; the result is the outcome of the accepted attempt, which is told whether it is the last allowed; the delays waited are the configured ones, one per failed attempt, in order |
| RetryHandling.RunIndexed | poket-facade/src/main/kotlin/io/github/andresviedma/poket/utils/retry/RetryHandler.kt:23-31 | runs as Run with the policy of the given profile |
| RetryHandling.FirstSuccessIsReturned | poket-facade/src/main/kotlin/io/github/andresviedma/poket/utils/retry/RetryHandler.kt:18 | with the default error detection, the first successful attempt within the allowed retries is the one accepted |
| RetryHandling.DisabledRunsOnce | poket-facade/src/main/kotlin/io/github/andresviedma/poket/utils/retry/RetryHandler.kt:41 | a disabled policy runs the block once, as the last attempt |
| RetryHandling.AllFailing | poket-facade/src/main/kotlin/io/github/andresviedma/poket/utils/retry/RetryHandler.kt:41-59 | when every attempt fails, the block runs maxRetries + 1 times and the last attempt's outcome is the result |
| RateLimitConfiguration.RateLimitConfig.GetTypeConfig | poket-facade/src/main/kotlin/io/github/andresviedma/poket/utils/ratelimit/RateLimitConfig.kt:7-8 | a configured type gets its own entry, any other type the default |
| RateLimitConfiguration.RateLimitTypeConfig.Active | poket-facade/src/main/kotlin/io/github/andresviedma/poket/utils/ratelimit/RateLimitConfig.kt:16-17 | a disabled type and a type whose maxEvents is Int.MAX_VALUE (no limit) are inactive; any other enabled type with an Int maxEvents is active |
| RateLimitConfiguration.UnconfiguredIsInactive | poket-facade/src/main/kotlin/io/github/andresviedma/poket/utils/ratelimit/RateLimitConfig.kt:11-17 | with the stock default (maxEvents Int.MAX_VALUE) an unconfigured type is never limited |
| RateLimiting.InSlot | poket-facade/src/main/kotlin/io/github/andresviedma/poket/utils/ratelimit/RateLimiter.kt:92 | pruning to the slot never adds events |
| RateLimiting.Decide | poket-facade/src/main/kotlin/io/github/andresviedma/poket/utils/ratelimit/RateLimiter.kt:90-106 | the event is in the limit exactly when the events still in the slot plus this one are at most maxEvents; the stored events become those of the slot, plus this event when it is admitted |
| RateLimiting.RateLimiter.constructor | poket-facade/src/main/kotlin/io/github/andresviedma/poket/utils/ratelimit/RateLimiter.kt:30-50 | a new limiter has no stored events and is not forced |
| RateLimiting.RateLimiter.EventInRateLimitLogic | poket-facade/src/main/kotlin/io/github/andresviedma/poket/utils/ratelimit/RateLimiter.kt:90-106 | only the key's stored events change, to those Decide gives, and its decision is returned |
| RateLimiting.RateLimiter.EventInRateLimit | poket-facade/src/main/kotlin/io/github/andresviedma/poket/utils/ratelimit/RateLimiter.kt:58-68 | an inactive limit admits without storing anything; a forced limit rejects without storing anything; otherwise the slot decides and only the key's events change |
| RateLimiting.RateLimiter.RunIfInRateLimit | poket-facade/src/main/kotlin/io/github/andresviedma/poket/utils/ratelimit/RateLimiter.kt:73-78 | the action's result when the event is in the limit, null otherwise, with the stored events as in EventInRateLimit |
| RateLimiting.RateLimiter.ExceedsRateLimit | poket-facade/src/main/kotlin/io/github/andresviedma/poket/utils/ratelimit/RateLimiter.kt:80-81 | exactly the negation of EventInRateLimit, with the same change to the stored events |
| RateLimiting.RateLimiter.ForceRateLimitInEvents | poket-facade/src/main/kotlin/io/github/andresviedma/poket/utils/ratelimit/RateLimiter.kt:86-88 | every later event is over the limit |
| RateLimiting.InSlotAppend | poket-facade/src/main/kotlin/io/github/andresviedma/poket/utils/ratelimit/RateLimiter.kt:92 | pruning keeps the order of the events and decides each event on its own |
| RateLimiting.InSlotTwice | poket-facade/src/main/kotlin/io/github/andresviedma/poket/utils/ratelimit/RateLimiter.kt:91-94 | pruning by an earlier time and then by a later one is pruning by the later one |
| RateLimiting.StoredAreAdmittedInSlot | poket-facade/src/main/kotlin/io/github/andresviedma/poket/utils/ratelimit/RateLimiter.kt:90-106 | with events in time order, the events stored for a key are exactly the admitted ones still in the slot of the latest event |
| RateLimiting.AdmittedWithinLimit | poket-facade/src/main/kotlin/io/github/andresviedma/poket/utils/ratelimit/RateLimiter.kt:95-101 | whenever an event is admitted, the admitted events in the slot ending at it, itself included, are at most maxEvents |
| RateLimiting.MoreEventsThanTheLimit | poket-facade/src/test/kotlin/io/github/andresviedma/poket/utils/ratelimit/RateLimiterTest.kt:66-77 | with three events per 2 seconds, a fourth event within 2 seconds of three admitted ones is rejected |
| RateLimiting.EventsTooOldAreNotConsidered | poket-facade/src/test/kotlin/io/github/andresviedma/poket/utils/ratelimit/RateLimiterTest.kt:79-90 | an event 2100 ms old has left a 2-second slot, so a fourth event is admitted |
| RateLimiting.EventsWithKey | poket-facade/src/test/kotlin/io/github/andresviedma/poket/utils/ratelimit/RateLimiterTest.kt:108-123 | the limit is counted per key: a full key rejects while another key admits |
| RateLimiting.DisabledAdmitsEverything | poket-facade/src/test/kotlin/io/github/andresviedma/poket/utils/ratelimit/RateLimiterTest.kt:92-106 | a disabled type admits an event whatever was recorded before |
| RateLimiting.InSlotCopies | poket-facade/src/main/kotlin/io/github/andresviedma/poket/utils/ratelimit/RateLimiter.kt:92 | events at an instant within the slot are all kept |
| RateLimiting.RunFiveTimesInRateLimit | poket-facade/src/test/kotlin/io/github/andresviedma/poket/utils/ratelimit/RateLimiterTest.kt:126-135 | five actions at the same instant with a limit of three run three times |

## Left out

- Concurrency is not modelled, because every operation here runs one call at a time. This covers request collapsing, the asynchronous regeneration launched by `getOrPut` (`GetOrPut` only reports whether it would be launched), coroutine contexts and `NonCancellable`, lock expiration watchers, the local coroutine lock system and the async runners.
- The reloader daemon of `ConfigProvider` (`startReloaderDaemon`, `killReloaderJob`, `withReloadCheckInterval`) is not modelled, because it is a background loop. One pass of it, `reloadOutdatedConfigSources`, is modelled.
- Metrics (Micrometer counters and timers) and logging are not modelled, because they do not change any result.
- Remote cache and lock systems (Lettuce, Redisson, Caffeine), serializer wrappers, the blocking wrappers and dependency-injection modules are not modelled, because they are clients of outside libraries or plain wiring. `MapCacheSystem` stands for the cache system in every cache model.
- The older duplicates in the com package are not modelled where an io version is (`DistributedMutex`, `ConfigProvider`, `ConstantConfigSource`, `CacheSystem`).
- `ObjectCache` is modelled directly over a `MapCacheSystem`. The factory's decorator chain (metrics, error masking, transaction awareness, serializers) is not composed, because each decorator is modelled on its own.
- The clock is a parameter (epoch milliseconds). The number drawn from `1..loadTestRollingFactor` is random, so each namespace an operation builds takes its own draw as a parameter. The draw made by the metrics timer of `generate` and `getOrPutBlock` is not a parameter, because it names only a metric; only its throwing on an empty range is modelled.
- Configuration priorities (`ConfigPriority`) are plain integers, and only constant configuration sources are modelled as the sources of `ConfigProvider`. Properties-file, YAML and property-tree sources are not modelled, because they parse outside formats.
- Configuration classes are named by strings, and a configuration object is its class name plus an opaque content string.
- `PropertyTrees`: the tree is modelled on values. Aliasing between a live subtree and the tree holding it is not captured. Neither is the copy `cloned()` makes, because values are never shared mutably. `PropertyTree` keeps the mutating methods over the value model.
- `PropertyTrees.ToNode`: nulls inside lists are dropped, as `mapNotNull` does. A null value inside a map that sits in a list is dropped as well, where Kotlin keeps a null child in that map.
- `PropertyTrees`: map keys are strings. Kotlin's `toString()` of other key types is not modelled.
- `PropertyTrees.ToRaw`: the message of the `NumberFormatException` is not modelled. The children are rendered before the sort rather than after it; both orders throw the same exception class or give the same value.
- `UndoRegisters` models `Sagas.kt` and `UndoableActions.kt` with one register and one handler, because the two files have the same behaviour. Undo functions are identified by number, and their own effects are not modelled.
- `CacheKeySerializing`: keys are given by the `toString()` renderings of their parts. Kotlin reflection (`componentN` lookup on data classes) is modelled as a list of component strings.
- `CacheTransactionHandler.CommitTransaction`: the contract states only what remains in the buffer. The writes are stated per system by `TransactionAwareCacheSystem.ExecuteTransactionOperations`, and several systems may share one target.
- `MapCaching.MapCacheSystem.GetObject`: the contract states one direction (a returned value is the stored one). `GetAfterSet` and `GetAfterInvalidate` state the other direction after writes.
- `DistributedMutexes.DistributedMutex.Synchronized`: its own contract only bounds the result. `SynchronizedRunsBlockIff`, `TimedOutWithoutLock`, `ReleaseOnGrantingSystem` and `ForceIgnoringErrorsRunsBlock` state its behaviour.
- `RateLimiting.RateLimiter`: the per-key event lists are kept without expiry, as the perpetual `MapCacheSystem` keeps them. The source stores them in an `ObjectCache` whose default TTL is 5 minutes, renewed by each event. With a cache system that enforces TTLs and a slot longer than 5 minutes, a key idle for 5 minutes loses its events and is admitted again, so `AdmittedWithinLimit` holds only for a cache system that keeps its entries. The rate limiter's distributed mutex is not modelled either, because calls are not concurrent here.
- `Transactions.TransactionManager.ForceRollbackAfterHandler`: a rollback that throws is caught and the walk goes on, as in the source, but the source also adds the caught exception to the original one as suppressed, and the model's exceptions carry no suppressed list; which rollbacks throw therefore changes nothing the model records.
- `Transactions.TransactionManager.RegisterHooks`: hooks that the body runs at once, because no register is open, are part of the body, whose outcome is given; an exception they throw is that outcome. Hooks run after the commit may throw, and `RunHooks` models that.
- Integer widths are unbounded, except where the source's 32-bit limits matter: `Int.MAX_VALUE` in the rate limit, and the `Int` range of index keys in the property tree. TTLs and timestamps are not wrapped.
