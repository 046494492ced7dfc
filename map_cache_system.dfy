/** The in-memory cache system that keeps every value until it is overwritten or
    invalidated (io/github/andresviedma/poket/cache/MapCacheSystem.kt). */
module MapCaching {
  import opened Base

  /** What the store keeps per key: the TTL it was written with, the value (absent for an
      invalidation) and whether the write asked for cross-system invalidation. */
  datatype MapCacheEntry<V> = MapCacheEntry(ttlSeconds: int, value: Option<V>, invalidation: bool)

  /** The entry `invalidateObject` leaves behind. */
  function Tombstone<V>(): MapCacheEntry<V> {
    MapCacheEntry(0, None, true)
  }

  /** `keyMap(namespace)`: the namespace's entries; a namespace never written is empty. */
  function KeyMap<K(!new), V>(store: map<string, map<K, MapCacheEntry<V>>>, namespace: string): map<K, MapCacheEntry<V>> {
    if namespace in store then store[namespace] else map[]
  }

  /** The value `getObject` returns: the stored value, none for a tombstone or a key never
      written. */
  function Lookup<K(!new), V>(store: map<string, map<K, MapCacheEntry<V>>>, namespace: string, key: K): Option<V> {
    if key in KeyMap(store, namespace) then KeyMap(store, namespace)[key].value else None
  }

  /** `keyMap(namespace).putAll(entries)`: later entries replace earlier ones key by key. */
  function PutEntries<K(!new), V>(store: map<string, map<K, MapCacheEntry<V>>>, namespace: string,
                            entries: map<K, MapCacheEntry<V>>): (r: map<string, map<K, MapCacheEntry<V>>>)
    ensures forall other :: other != namespace ==> KeyMap(r, other) == KeyMap(store, other)
    ensures forall k :: k in KeyMap(r, namespace) <==> k in KeyMap(store, namespace) || k in entries
  {
    store[namespace := KeyMap(store, namespace) + entries]
  }

  /** A key written to a namespace reads back as the entry written; every other key of
      every namespace reads as before. */
  lemma LookupPutEntries<K(!new), V>(store: map<string, map<K, MapCacheEntry<V>>>, namespace: string,
                               entries: map<K, MapCacheEntry<V>>, ns: string, key: K)
    ensures Lookup(PutEntries(store, namespace, entries), ns, key) ==
              if ns == namespace && key in entries then entries[key].value else Lookup(store, ns, key)
  {
  }

  /** `setObject` followed by `getObject` on the same namespace and key gives the value. */
  lemma GetAfterSet<K(!new), V>(store: map<string, map<K, MapCacheEntry<V>>>, namespace: string, key: K,
                          value: V, ttlSeconds: int, force: bool)
    ensures Lookup(PutEntries(store, namespace, map[key := MapCacheEntry(ttlSeconds, Some(value), force)]), namespace, key)
              == Some(value)
  {
    LookupPutEntries(store, namespace, map[key := MapCacheEntry(ttlSeconds, Some(value), force)], namespace, key);
  }

  /** After an invalidation the key reads as absent and is marked as invalidated. */
  lemma GetAfterInvalidate<K(!new), V>(store: map<string, map<K, MapCacheEntry<V>>>, namespace: string, key: K)
    ensures Lookup(PutEntries(store, namespace, map[key := Tombstone<V>()]), namespace, key).None?
    ensures KeyMap(PutEntries(store, namespace, map[key := Tombstone<V>()]), namespace)[key].invalidation
  {
    LookupPutEntries(store, namespace, map[key := Tombstone<V>()], namespace, key);
  }

  /** The entries stored by the uniform `setObjectList`. */
  function UniformEntries<K(!new), V>(values: map<K, V>, ttlSeconds: int, force: bool): (r: map<K, MapCacheEntry<V>>)
    ensures r.Keys == values.Keys
    ensures forall k :: k in r ==> r[k] == MapCacheEntry(ttlSeconds, Some(values[k]), force)
  {
    map k | k in values :: MapCacheEntry(ttlSeconds, Some(values[k]), force)
  }

  /** The entries stored by the `setObjectList` variant that gives each value its own TTL and
      invalidation flag. */
  function TripleEntries<K(!new), V>(values: map<K, (V, int, bool)>): (r: map<K, MapCacheEntry<V>>)
    ensures r.Keys == values.Keys
    ensures forall k :: k in r ==> r[k] == MapCacheEntry(values[k].1, Some(values[k].0), values[k].2)
  {
    map k | k in values :: MapCacheEntry(values[k].1, Some(values[k].0), values[k].2)
  }

  /** The entries stored by `invalidateObjectList`: one tombstone per listed key. */
  function TombstoneEntries<K(!new), V>(keys: seq<K>): (r: map<K, MapCacheEntry<V>>)
    ensures forall k :: k in r <==> k in keys
    ensures forall k :: k in r ==> r[k] == Tombstone()
  {
    map k | k in keys :: Tombstone()
  }

  /** `content(namespace)`: the namespace's keys with a value, tombstones left out. */
  function Content<K(!new), V>(store: map<string, map<K, MapCacheEntry<V>>>, namespace: string): (r: map<K, V>)
    ensures forall k :: k in r <==> Lookup(store, namespace, k).Some?
    ensures forall k :: k in r ==> r[k] == Lookup(store, namespace, k).value
  {
    var entries := KeyMap(store, namespace);
    map k | k in entries && entries[k].value.Some? :: entries[k].value.value
  }

  /** The cached values of those `keys` that have one. */
  function Found<K(!new), V>(store: map<string, map<K, MapCacheEntry<V>>>, namespace: string, keys: seq<K>): (r: map<K, V>)
    ensures forall k :: k in r <==> k in keys && Lookup(store, namespace, k).Some?
    ensures forall k :: k in r ==> r[k] == Lookup(store, namespace, k).value
  {
    map k | k in keys && Lookup(store, namespace, k).Some? :: Lookup(store, namespace, k).value
  }

  class MapCacheSystem<K(==,!new), V> {
    /** Namespace, then key, then entry. */
    var cacheMap: map<string, map<K, MapCacheEntry<V>>>

    static const Id := "memory-perpetual"

    constructor()
      ensures cacheMap == map[]
    {
      cacheMap := map[];
    }

    function GetObject(namespace: string, key: K): (r: Option<V>)
      reads this
      ensures r.Some? ==> key in KeyMap(cacheMap, namespace) && KeyMap(cacheMap, namespace)[key].value == r
    {
      Lookup(cacheMap, namespace, key)
    }

    method SetObject(namespace: string, key: K, value: V, ttlSeconds: int, forceInvalidation: bool)
      modifies this
      ensures cacheMap == PutEntries(old(cacheMap), namespace,
                                     map[key := MapCacheEntry(ttlSeconds, Some(value), forceInvalidation)])
      ensures GetObject(namespace, key) == Some(value)
    {
      cacheMap := PutEntries(cacheMap, namespace, map[key := MapCacheEntry(ttlSeconds, Some(value), forceInvalidation)]);
      GetAfterSet(old(cacheMap), namespace, key, value, ttlSeconds, forceInvalidation);
    }

    method InvalidateObject(namespace: string, key: K)
      modifies this
      ensures cacheMap == PutEntries(old(cacheMap), namespace, map[key := Tombstone()])
      ensures GetObject(namespace, key).None? && ValueInvalidated(namespace, key)
    {
      cacheMap := PutEntries(cacheMap, namespace, map[key := Tombstone()]);
      GetAfterInvalidate(old(cacheMap), namespace, key);
    }

    /** `getObjectList`: each requested key that holds a value, with that value. */
    method GetObjectList(namespace: string, keys: seq<K>) returns (objects: map<K, V>)
      ensures objects == Found(cacheMap, namespace, keys)
    {
      objects := map[];
      var i := 0;
      while i < |keys|
        invariant 0 <= i <= |keys|
        invariant objects == Found(cacheMap, namespace, keys[..i])
      {
        var entry := GetObject(namespace, keys[i]);
        if entry.Some? {
          objects := objects[keys[i] := entry.value];
        }
        assert keys[..i + 1] == keys[..i] + [keys[i]];
        i := i + 1;
      }
      assert keys[..i] == keys;
    }

    method SetObjectList(namespace: string, values: map<K, V>, ttlSeconds: int, forceInvalidation: bool)
      modifies this
      ensures cacheMap == PutEntries(old(cacheMap), namespace, UniformEntries(values, ttlSeconds, forceInvalidation))
    {
      cacheMap := PutEntries(cacheMap, namespace, UniformEntries(values, ttlSeconds, forceInvalidation));
    }

    method SetObjectListEntries(namespace: string, values: map<K, (V, int, bool)>)
      modifies this
      ensures cacheMap == PutEntries(old(cacheMap), namespace, TripleEntries(values))
    {
      cacheMap := PutEntries(cacheMap, namespace, TripleEntries(values));
    }

    method InvalidateObjectList(namespace: string, keys: seq<K>)
      modifies this
      ensures cacheMap == PutEntries(old(cacheMap), namespace, TombstoneEntries(keys))
    {
      cacheMap := PutEntries(cacheMap, namespace, TombstoneEntries(keys));
    }

    method Clear()
      modifies this
      ensures cacheMap == map[]
    {
      cacheMap := map[];
    }

    /** `contains`: a plain write with TTL 0 and no invalidation, for test set-up. */
    method Contains(namespace: string, key: K, value: V)
      modifies this
      ensures cacheMap == PutEntries(old(cacheMap), namespace, map[key := MapCacheEntry(0, Some(value), false)])
    {
      SetObject(namespace, key, value, 0, false);
    }

    function ValueTtl(namespace: string, key: K): (r: Option<int>)
      reads this
      ensures r.Some? <==> key in KeyMap(cacheMap, namespace)
    {
      if key in KeyMap(cacheMap, namespace) then Some(KeyMap(cacheMap, namespace)[key].ttlSeconds) else None
    }

    function ValueInvalidated(namespace: string, key: K): (r: bool)
      reads this
      ensures r ==> key in KeyMap(cacheMap, namespace)
    {
      key in KeyMap(cacheMap, namespace) && KeyMap(cacheMap, namespace)[key].invalidation
    }

    function ContentOf(namespace: string): (r: map<K, V>)
      reads this
      ensures forall k :: k in r <==> GetObject(namespace, k).Some?
    {
      Content(cacheMap, namespace)
    }
  }
}
