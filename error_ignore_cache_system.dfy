/** The decorator that masks cache system errors according to the type's configuration
    (io/github/andresviedma/poket/cache/decorators/ErrorIgnoreCacheSystem.kt).
    The target's failures are inputs: each operation is given the exceptions, if any, that
    the target's calls made during it throw. */
module ErrorIgnoring {
  import opened Base
  import opened CacheConfiguration
  import MapCaching

  /** What `runOrFail` does with a call: passes its result on, rethrows its exception, or
      masks the exception (and the caller then sees null). */
  datatype Guarded<T> = Passed(value: T) | Rethrown(error: Exception) | Ignored

  /** An error escapes the decorator when it is an IllegalStateException, a sign of
      misconfiguration, or when the operation's flag asks for it. */
  predicate Rethrows(exceptionOnError: Option<bool>, e: Exception) {
    e.IsInstance(IllegalStateException) || exceptionOnError == Some(true)
  }

  /** `runOrFail(exceptionOnError) { block }`, given the block's outcome. */
  function RunOrFail<T>(exceptionOnError: Option<bool>, attempt: Outcome<T>): (r: Guarded<T>)
    ensures r.Passed? <==> attempt.Ok?
    ensures r.Passed? ==> r.value == attempt.value
    ensures attempt.Thrown? ==> (r.Rethrown? <==> Rethrows(exceptionOnError, attempt.error))
    ensures r.Rethrown? ==> r.error == attempt.error
    ensures attempt.Thrown? && attempt.error.IsInstance(IllegalStateException) ==> r.Rethrown?
  {
    match attempt
    case Ok(v) => Passed(v)
    case Thrown(e) =>
      if e.IsInstance(IllegalStateException) then Rethrown(e)
      else if exceptionOnError == Some(true) then Rethrown(e)
      else Ignored
  }

  /** The outcome of a target call that throws `failure`, if given, and otherwise returns
      `value`. */
  function Attempt<T>(failure: Option<Exception>, value: T): (r: Outcome<T>)
    ensures r.Ok? <==> failure.None?
  {
    if failure.Some? then Thrown(failure.value) else Ok(value)
  }

  /** The exceptions thrown by the target calls of one decorated write: the write itself,
      and the read and invalidation of the repair done after a masked write error. */
  datatype Faults = Faults(write: Option<Exception>, read: Option<Exception>, invalidate: Option<Exception>)

  /** `values.values.first()` on an empty map. */
  const EmptyCollection := Exception({"NoSuchElementException", "RuntimeException", "Exception", "Throwable"},
                                     "Collection is empty.")

  /** What the repair after a masked write error does: whether it invalidates the written
      keys and how the write ends. */
  datatype Repair = Repair(invalidates: bool, outcome: Outcome<Unit>)

  /** The repair (`onIgnoredError`) of a masked write error. With `forceInvalidation`, the
      current values are read through the decorator: a list write first takes the class of
      an arbitrary written value, which throws when nothing was written; `differs` says
      whether what was read is non-empty and differs from the written values. A read error
      that is masked reads as nothing. */
  function RepairAfterMaskedWrite(config: CacheTypeConfig, forceInvalidation: bool, nothingWritten: bool,
                                  differs: bool, faults: Faults): (r: Repair)
    ensures r.invalidates <==>
              forceInvalidation && !nothingWritten && faults.read.None? && differs && faults.invalidate.None?
    ensures r.outcome.Thrown? ==> forceInvalidation && !r.invalidates
  {
    if !forceInvalidation then Repair(false, Ok(Unit))
    else if nothingWritten then Repair(false, Thrown(EmptyCollection))
    else if faults.read.Some? && Rethrows(config.failOnGetError, faults.read.value) then Repair(false, Thrown(faults.read.value))
    else if faults.read.Some? || !differs then Repair(false, Ok(Unit))
    else if faults.invalidate.None? then Repair(true, Ok(Unit))
    else if Rethrows(config.failOnInvalidateError, faults.invalidate.value) then Repair(false, Thrown(faults.invalidate.value))
    else Repair(false, Ok(Unit))
  }

  /** Without forced invalidation a masked write error leaves the cache as it was and the
      write ends normally. */
  lemma MaskedWriteWithoutForce(config: CacheTypeConfig, nothingWritten: bool, differs: bool, faults: Faults)
    ensures RepairAfterMaskedWrite(config, false, nothingWritten, differs, faults) == Repair(false, Ok(Unit))
  {
  }

  class ErrorIgnoreCacheSystem<K(==,!new), V(==)> {
    const target: MapCaching.MapCacheSystem<K, V>
    const cacheType: string
    const defaultConfig: Option<CacheTypeConfig>
    /** The `CacheConfig` the configuration provider currently serves. */
    var configuration: CacheConfig

    constructor(target: MapCaching.MapCacheSystem<K, V>, cacheType: string, defaultConfig: Option<CacheTypeConfig>,
                configuration: CacheConfig)
      ensures this.target == target && this.cacheType == cacheType
      ensures this.defaultConfig == defaultConfig && this.configuration == configuration
    {
      this.target := target;
      this.cacheType := cacheType;
      this.defaultConfig := defaultConfig;
      this.configuration := configuration;
    }

    function Config(): CacheTypeConfig
      reads this
    {
      configuration.GetTypeConfig(cacheType, defaultConfig)
    }

    /** `getObject`: the target's value; a read error escapes only as `failOnGetError` says,
        and otherwise reads as null. */
    method GetObject(namespace: string, key: K, failure: Option<Exception>) returns (r: Outcome<Option<V>>)
      ensures failure.None? ==> r == Ok(target.GetObject(namespace, key))
      ensures failure.Some? ==> (r.Thrown? <==> Rethrows(Config().failOnGetError, failure.value))
      ensures failure.Some? && r.Thrown? ==> r.error == failure.value
      ensures failure.Some? && r.Ok? ==> r.value.None?
    {
      var guarded := RunOrFail(Config().failOnGetError, Attempt(failure, target.GetObject(namespace, key)));
      r := match guarded
        case Passed(v) => Ok(v)
        case Rethrown(e) => Thrown(e)
        case Ignored => Ok(None);
    }

    /** `getObjectList`: the target's values; a masked read error gives an empty map. */
    method GetObjectList(namespace: string, keys: seq<K>, failure: Option<Exception>) returns (r: Outcome<map<K, V>>)
      ensures failure.None? ==> r == Ok(MapCaching.Found(target.cacheMap, namespace, keys))
      ensures failure.Some? ==> (r.Thrown? <==> Rethrows(Config().failOnGetError, failure.value))
      ensures failure.Some? && r.Thrown? ==> r.error == failure.value
      ensures failure.Some? && r.Ok? ==> r.value == map[]
    {
      var found := target.GetObjectList(namespace, keys);
      var guarded := RunOrFail(Config().failOnGetError, Attempt(failure, found));
      r := match guarded
        case Passed(v) => Ok(v)
        case Rethrown(e) => Thrown(e)
        case Ignored => Ok(map[]);
    }

    /** `invalidateObject`, with errors handled by `failOnInvalidateError`. */
    method InvalidateObject(namespace: string, key: K, failure: Option<Exception>) returns (r: Outcome<Unit>)
      modifies target
      ensures failure.None? ==> (r == Ok(Unit) &&
                target.cacheMap == MapCaching.PutEntries(old(target.cacheMap), namespace, map[key := MapCaching.Tombstone()]))
      ensures failure.Some? ==> (target.cacheMap == old(target.cacheMap) &&
                r == (if Rethrows(Config().failOnInvalidateError, failure.value) then Thrown(failure.value) else Ok(Unit)))
    {
      if failure.None? {
        target.InvalidateObject(namespace, key);
        r := Ok(Unit);
      } else {
        r := if Rethrows(Config().failOnInvalidateError, failure.value) then Thrown(failure.value) else Ok(Unit);
      }
    }

    /** `invalidateObjectList`, with errors handled by `failOnInvalidateError`. */
    method InvalidateObjectList(namespace: string, keys: seq<K>, failure: Option<Exception>) returns (r: Outcome<Unit>)
      modifies target
      ensures failure.None? ==> (r == Ok(Unit) &&
                target.cacheMap == MapCaching.PutEntries(old(target.cacheMap), namespace, MapCaching.TombstoneEntries(keys)))
      ensures failure.Some? ==> (target.cacheMap == old(target.cacheMap) &&
                r == (if Rethrows(Config().failOnInvalidateError, failure.value) then Thrown(failure.value) else Ok(Unit)))
    {
      if failure.None? {
        target.InvalidateObjectList(namespace, keys);
        r := Ok(Unit);
      } else {
        r := if Rethrows(Config().failOnInvalidateError, failure.value) then Thrown(failure.value) else Ok(Unit);
      }
    }

    /** `setObject`: a write error escapes as `failOnPutError` says; a masked one with
        `forceInvalidation` invalidates the key when it holds a different value. */
    method SetObject(namespace: string, key: K, value: V, ttlSeconds: int, forceInvalidation: bool, faults: Faults)
      returns (r: Outcome<Unit>)
      modifies target
      ensures faults.write.None? ==> (r == Ok(Unit) &&
                target.cacheMap == MapCaching.PutEntries(old(target.cacheMap), namespace,
                                                         map[key := MapCaching.MapCacheEntry(ttlSeconds, Some(value), forceInvalidation)]))
      ensures faults.write.Some? && Rethrows(Config().failOnPutError, faults.write.value) ==>
                r == Thrown(faults.write.value) && target.cacheMap == old(target.cacheMap)
      ensures faults.write.Some? && !Rethrows(Config().failOnPutError, faults.write.value) ==>
                var current := old(target.GetObject(namespace, key));
                var repair := RepairAfterMaskedWrite(Config(), forceInvalidation, false,
                                                     current.Some? && current.value != value, faults);
                r == repair.outcome &&
                target.cacheMap == if repair.invalidates
                                   then MapCaching.PutEntries(old(target.cacheMap), namespace, map[key := MapCaching.Tombstone()])
                                   else old(target.cacheMap)
    {
      if faults.write.None? {
        target.SetObject(namespace, key, value, ttlSeconds, forceInvalidation);
        return Ok(Unit);
      }
      if Rethrows(Config().failOnPutError, faults.write.value) {
        return Thrown(faults.write.value);
      }
      r := Ok(Unit);
      if forceInvalidation {
        var current := GetObject(namespace, key, faults.read);
        if current.Thrown? {
          r := Thrown(current.error);
        } else if current.value.Some? && current.value.value != value {
          r := InvalidateObject(namespace, key, faults.invalidate);
        }
      }
    }

    /** `setObjectList` with one TTL and flag: like `setObject`, the repair invalidating
        all the written keys when what they hold is non-empty and differs from the written
        map. */
    method SetObjectList(namespace: string, values: map<K, V>, ttlSeconds: int, forceInvalidation: bool,
                         keys: seq<K>, faults: Faults)
      returns (r: Outcome<Unit>)
      requires forall k :: k in keys <==> k in values
      modifies target
      ensures faults.write.None? ==> (r == Ok(Unit) &&
                target.cacheMap == MapCaching.PutEntries(old(target.cacheMap), namespace,
                                                         MapCaching.UniformEntries(values, ttlSeconds, forceInvalidation)))
      ensures faults.write.Some? && Rethrows(Config().failOnPutError, faults.write.value) ==>
                r == Thrown(faults.write.value) && target.cacheMap == old(target.cacheMap)
      ensures faults.write.Some? && !Rethrows(Config().failOnPutError, faults.write.value) ==>
                var current := MapCaching.Found(old(target.cacheMap), namespace, keys);
                var repair := RepairAfterMaskedWrite(Config(), forceInvalidation, values == map[],
                                                     current != map[] && values != current, faults);
                r == repair.outcome &&
                target.cacheMap == if repair.invalidates
                                   then MapCaching.PutEntries(old(target.cacheMap), namespace, MapCaching.TombstoneEntries(keys))
                                   else old(target.cacheMap)
    {
      if faults.write.None? {
        target.SetObjectList(namespace, values, ttlSeconds, forceInvalidation);
        return Ok(Unit);
      }
      if Rethrows(Config().failOnPutError, faults.write.value) {
        return Thrown(faults.write.value);
      }
      r := Ok(Unit);
      if forceInvalidation {
        if values == map[] {
          return Thrown(EmptyCollection);
        }
        var current := GetObjectList(namespace, keys, faults.read);
        if current.Thrown? {
          r := Thrown(current.error);
        } else if current.value != map[] && values != current.value {
          r := InvalidateObjectList(namespace, keys, faults.invalidate);
        }
      }
    }

    /** `setObjectList` with a TTL and flag per value: the repair runs when any value forces
        invalidation, and since a map of triples never equals the map of values read back,
        it invalidates whenever anything is read. */
    method SetObjectListEntries(namespace: string, values: map<K, (V, int, bool)>, keys: seq<K>, faults: Faults)
      returns (r: Outcome<Unit>)
      requires forall k :: k in keys <==> k in values
      modifies target
      ensures faults.write.None? ==> (r == Ok(Unit) &&
                target.cacheMap == MapCaching.PutEntries(old(target.cacheMap), namespace, MapCaching.TripleEntries(values)))
      ensures faults.write.Some? && Rethrows(Config().failOnPutError, faults.write.value) ==>
                r == Thrown(faults.write.value) && target.cacheMap == old(target.cacheMap)
      ensures faults.write.Some? && !Rethrows(Config().failOnPutError, faults.write.value) ==>
                var current := MapCaching.Found(old(target.cacheMap), namespace, keys);
                var repair := RepairAfterMaskedWrite(Config(), AnyForcesInvalidation(values), values == map[],
                                                     current != map[], faults);
                r == repair.outcome &&
                target.cacheMap == if repair.invalidates
                                   then MapCaching.PutEntries(old(target.cacheMap), namespace, MapCaching.TombstoneEntries(keys))
                                   else old(target.cacheMap)
    {
      if faults.write.None? {
        target.SetObjectListEntries(namespace, values);
        return Ok(Unit);
      }
      if Rethrows(Config().failOnPutError, faults.write.value) {
        return Thrown(faults.write.value);
      }
      r := Ok(Unit);
      if AnyForcesInvalidation(values) {
        assert values != map[];
        var current := GetObjectList(namespace, keys, faults.read);
        if current.Thrown? {
          r := Thrown(current.error);
        } else if current.value != map[] {
          r := InvalidateObjectList(namespace, keys, faults.invalidate);
        }
      }
    }
  }

  /** `anyValueForcesInvalidation`. */
  predicate AnyForcesInvalidation<K, V>(values: map<K, (V, int, bool)>) {
    exists k :: k in values && values[k].2
  }
}
