/** The decorator that defers cache writes made inside a transaction until it commits
    (com/github/andresviedma/poket/cache/decorators/TransactionAwareCacheSystem.kt).
    Whether a transaction is open, and its buffer, are given to each call. */
module TransactionAwareCaching {
  import opened Base
  import AssocLists
  import MapCaching
  import opened CachePending

  type Entry<K, V> = (PendingKey<K>, Option<PendingOperation<V>>)

  /** The buffer after a set of each (key, operation) in order. */
  function WithSets<K(==), V>(ops: seq<Entry<K, V>>, cacheType: string, namespace: string,
                              sets: seq<(K, PendingOperation<V>)>): (r: seq<Entry<K, V>>)
    decreases |sets|
  {
    if sets == [] then ops
    else
      var last := sets[|sets| - 1];
      Replaced(WithSets(ops, cacheType, namespace, sets[..|sets| - 1]), PendingKey(cacheType, namespace, last.0), Some(last.1))
  }

  /** The buffer after an invalidation of each key in order. */
  function WithInvalidations<K(==), V>(ops: seq<Entry<K, V>>, cacheType: string, namespace: string, keys: seq<K>)
    : (r: seq<Entry<K, V>>)
    decreases |keys|
  {
    if keys == [] then ops
    else Replaced(WithInvalidations(ops, cacheType, namespace, keys[..|keys| - 1]),
                  PendingKey(cacheType, namespace, keys[|keys| - 1]), None)
  }

  /** Buffering a list of sets keeps one entry per key. */
  lemma {:induction false} SetsValid<K, V>(ops: seq<Entry<K, V>>, cacheType: string, namespace: string,
                                           sets: seq<(K, PendingOperation<V>)>)
    requires AssocLists.DistinctKeys(ops)
    ensures AssocLists.DistinctKeys(WithSets(ops, cacheType, namespace, sets))
    decreases |sets|
  {
    if sets != [] {
      var init := sets[..|sets| - 1];
      var last := sets[|sets| - 1];
      SetsValid(ops, cacheType, namespace, init);
      LastOperationWins(WithSets(ops, cacheType, namespace, init), PendingKey(cacheType, namespace, last.0), Some(last.1),
                        PendingKey(cacheType, namespace, last.0));
    }
  }

  /** After buffering a list of sets, each of its keys holds that key's operation, and
      other keys are left alone. */
  lemma {:induction false} SetsBufferOnePerKey<K, V>(ops: seq<Entry<K, V>>, cacheType: string, namespace: string,
                                                     sets: seq<(K, PendingOperation<V>)>, k: PendingKey<K>)
    requires AssocLists.DistinctKeys(ops) && AssocLists.DistinctKeys(sets)
    ensures AssocLists.Get(WithSets(ops, cacheType, namespace, sets), k) ==
              if k.cacheType == cacheType && k.namespace == namespace && AssocLists.HasKey(sets, k.key)
              then Some(Some(AssocLists.Get(sets, k.key).value))
              else AssocLists.Get(ops, k)
    decreases |sets|
  {
    if sets != [] {
      var init := sets[..|sets| - 1];
      var last := sets[|sets| - 1];
      assert sets == init + [last];
      var pk := PendingKey(cacheType, namespace, last.0);
      SetsBufferOnePerKey(ops, cacheType, namespace, init, k);
      SetsValid(ops, cacheType, namespace, init);
      LastOperationWins(WithSets(ops, cacheType, namespace, init), pk, Some(last.1), k);
      AssocLists.GetAppend(init, last.0, last.1, k.key);
      assert !AssocLists.HasKey(init, last.0);
      if k == pk {
        assert AssocLists.Get(sets, k.key) == Some(last.1);
      } else if k.cacheType == cacheType && k.namespace == namespace {
        assert AssocLists.Get(sets, k.key) == AssocLists.Get(init, k.key);
      }
    }
  }

  lemma {:induction false} InvalidationsValid<K, V>(ops: seq<Entry<K, V>>, cacheType: string, namespace: string, keys: seq<K>)
    requires AssocLists.DistinctKeys(ops)
    ensures AssocLists.DistinctKeys(WithInvalidations(ops, cacheType, namespace, keys))
    decreases |keys|
  {
    if keys != [] {
      var init := WithInvalidations(ops, cacheType, namespace, keys[..|keys| - 1]);
      InvalidationsValid(ops, cacheType, namespace, keys[..|keys| - 1]);
      LastOperationWins(init, PendingKey(cacheType, namespace, keys[|keys| - 1]), None,
                        PendingKey(cacheType, namespace, keys[|keys| - 1]));
    }
  }

  /** What one namespace's buffered operations are gathered into. */
  datatype OperationsBuffer<K, V> = OperationsBuffer(toInvalidateKeys: seq<K>, toSetObjects: map<K, PendingOperation<V>>)

  /** The operations of one cache type, in buffer order. */
  function OfType<K(==), V>(ops: seq<Entry<K, V>>, cacheType: string): (r: seq<Entry<K, V>>)
    ensures |r| <= |ops|
  {
    if ops == [] then []
    else (if ops[0].0.cacheType == cacheType then [ops[0]] else []) + OfType(ops[1..], cacheType)
  }

  lemma {:induction false} InOfType<K, V>(ops: seq<Entry<K, V>>, cacheType: string, e: Entry<K, V>)
    ensures e in OfType(ops, cacheType) <==> e in ops && e.0.cacheType == cacheType
  {
    if ops != [] {
      InOfType(ops[1..], cacheType, e);
      assert ops == [ops[0]] + ops[1..];
    }
  }

  function KeysOf<K(==), V>(entries: seq<Entry<K, V>>): set<PendingKey<K>> {
    set i | 0 <= i < |entries| :: entries[i].0
  }

  /** The operations left in the buffer once a type's operations are executed are
      exactly those of other types. */
  lemma RemainingOperations<K, V>(ops: seq<Entry<K, V>>, cacheType: string, e: Entry<K, V>)
    ensures e in AssocLists.RemoveAll(ops, KeysOf(OfType(ops, cacheType))) <==> e in ops && e.0.cacheType != cacheType
  {
    AssocLists.InRemoveAll(ops, KeysOf(OfType(ops, cacheType)), e);
    var entries := OfType(ops, cacheType);
    if e.0 in KeysOf(entries) {
      var i :| 0 <= i < |entries| && entries[i].0 == e.0;
      InOfType(ops, cacheType, entries[i]);
    }
    if e in ops && e.0.cacheType == cacheType {
      InOfType(ops, cacheType, e);
      var i :| 0 <= i < |entries| && entries[i] == e;
    }
  }

  /** One buffered operation added to its namespace's buffer; namespaces keep the order in
      which they were first seen. */
  function AddToGroups<K(==), V>(groups: seq<(string, OperationsBuffer<K, V>)>, e: Entry<K, V>)
    : seq<(string, OperationsBuffer<K, V>)>
  {
    var buffer := AssocLists.Get(groups, e.0.namespace).GetOr(OperationsBuffer([], map[]));
    var updated := if e.1.None? then buffer.(toInvalidateKeys := buffer.toInvalidateKeys + [e.0.key])
                   else buffer.(toSetObjects := buffer.toSetObjects[e.0.key := e.1.value]);
    AssocLists.Put(groups, e.0.namespace, updated)
  }

  /** The per-namespace buffers built from a type's operations. */
  function Group<K(==), V>(entries: seq<Entry<K, V>>): seq<(string, OperationsBuffer<K, V>)>
    decreases |entries|
  {
    if entries == [] then [] else AddToGroups(Group(entries[..|entries| - 1]), entries[|entries| - 1])
  }

  /** The buffered set of `key` in `namespace`, as grouped. */
  function GroupedSet<K(==), V>(groups: seq<(string, OperationsBuffer<K, V>)>, namespace: string, key: K)
    : Option<PendingOperation<V>>
  {
    var g := AssocLists.Get(groups, namespace);
    if g.Some? && key in g.value.toSetObjects then Some(g.value.toSetObjects[key]) else None
  }

  /** Whether `key` is to be invalidated in `namespace`, as grouped. */
  predicate GroupedInvalidation<K(==), V>(groups: seq<(string, OperationsBuffer<K, V>)>, namespace: string, key: K) {
    var g := AssocLists.Get(groups, namespace);
    g.Some? && key in g.value.toInvalidateKeys
  }

  /** The set operation in a buffer lookup, if the key holds one. */
  function BufferedSet<V>(found: Option<Option<PendingOperation<V>>>): Option<PendingOperation<V>> {
    if found.Some? then found.value else None
  }

  /** Grouping loses and invents no set: for operations of one type with distinct keys, a
      key is set in a namespace's buffer to exactly its buffered operation. */
  lemma {:induction false} GroupingKeepsSets<K, V>(entries: seq<Entry<K, V>>, cacheType: string,
                                                   namespace: string, key: K)
    requires AssocLists.DistinctKeys(entries)
    requires forall i :: 0 <= i < |entries| ==> entries[i].0.cacheType == cacheType
    ensures GroupedSet(Group(entries), namespace, key) ==
              BufferedSet(AssocLists.Get(entries, PendingKey(cacheType, namespace, key)))
    decreases |entries|
  {
    if entries != [] {
      var init := entries[..|entries| - 1];
      var last := entries[|entries| - 1];
      assert entries == init + [last];
      var pk := PendingKey(cacheType, namespace, key);
      GroupingKeepsSets(init, cacheType, namespace, key);
      AssocLists.GetAppend(init, last.0, last.1, pk);
      var groups := Group(init);
      var buffer := AssocLists.Get(groups, last.0.namespace).GetOr(OperationsBuffer([], map[]));
      var updated := if last.1.None? then buffer.(toInvalidateKeys := buffer.toInvalidateKeys + [last.0.key])
                     else buffer.(toSetObjects := buffer.toSetObjects[last.0.key := last.1.value]);
      AssocLists.GetPut(groups, last.0.namespace, updated, namespace);
      if last.0 == pk {
        assert !AssocLists.HasKey(init, pk);
      }
    }
  }

  /** Grouping loses and invents no invalidation: a key is in a namespace's invalidation
      list exactly when an invalidation of it was buffered. */
  lemma {:induction false} GroupingKeepsInvalidations<K, V>(entries: seq<Entry<K, V>>, cacheType: string,
                                                            namespace: string, key: K)
    requires AssocLists.DistinctKeys(entries)
    requires forall i :: 0 <= i < |entries| ==> entries[i].0.cacheType == cacheType
    ensures GroupedInvalidation(Group(entries), namespace, key) <==>
              AssocLists.Get(entries, PendingKey(cacheType, namespace, key)) == Some(None)
    decreases |entries|
  {
    if entries != [] {
      var init := entries[..|entries| - 1];
      var last := entries[|entries| - 1];
      assert entries == init + [last];
      var pk := PendingKey(cacheType, namespace, key);
      GroupingKeepsInvalidations(init, cacheType, namespace, key);
      AssocLists.GetAppend(init, last.0, last.1, pk);
      var groups := Group(init);
      var buffer := AssocLists.Get(groups, last.0.namespace).GetOr(OperationsBuffer([], map[]));
      var updated := if last.1.None? then buffer.(toInvalidateKeys := buffer.toInvalidateKeys + [last.0.key])
                     else buffer.(toSetObjects := buffer.toSetObjects[last.0.key := last.1.value]);
      AssocLists.GetPut(groups, last.0.namespace, updated, namespace);
      if last.0 == pk {
        assert !AssocLists.HasKey(init, pk);
      }
    }
  }

  /** One namespace's operations against the target: invalidations first, then sets, each
      skipped when empty and each left undone, on its own, when the target call fails. */
  function ApplyNamespace<K(!new), V>(store: map<string, map<K, MapCaching.MapCacheEntry<V>>>, namespace: string,
                                      buffer: OperationsBuffer<K, V>, invalidateFails: set<string>, setFails: set<string>)
    : map<string, map<K, MapCaching.MapCacheEntry<V>>>
  {
    var afterInvalidations :=
      if |buffer.toInvalidateKeys| > 0 && namespace !in invalidateFails
      then MapCaching.PutEntries(store, namespace, MapCaching.TombstoneEntries(buffer.toInvalidateKeys))
      else store;
    if |buffer.toSetObjects| > 0 && namespace !in setFails
    then MapCaching.PutEntries(afterInvalidations, namespace, MapCaching.TripleEntries(AsTriples(buffer.toSetObjects)))
    else afterInvalidations
  }

  function AsTriples<K(!new), V>(sets: map<K, PendingOperation<V>>): (r: map<K, (V, int, bool)>)
    ensures r.Keys == sets.Keys
  {
    map k | k in sets :: (sets[k].value, sets[k].ttlSeconds, sets[k].forceInvalidation)
  }

  /** A buffered set is applied unless the namespace's set call fails, whatever happens to
      its invalidations; a buffered invalidation of a key not also set is applied unless
      the invalidation call fails, whatever happens to the sets. */
  lemma NamespaceCallsAreIndependent<K(!new), V>(store: map<string, map<K, MapCaching.MapCacheEntry<V>>>, namespace: string,
                                                 buffer: OperationsBuffer<K, V>, invalidateFails: set<string>,
                                                 setFails: set<string>, key: K)
    ensures key in buffer.toSetObjects && namespace !in setFails ==>
              MapCaching.Lookup(ApplyNamespace(store, namespace, buffer, invalidateFails, setFails), namespace, key)
                == Some(buffer.toSetObjects[key].value)
    ensures key in buffer.toInvalidateKeys && key !in buffer.toSetObjects && namespace !in invalidateFails ==>
              MapCaching.Lookup(ApplyNamespace(store, namespace, buffer, invalidateFails, setFails), namespace, key).None?
  {
    var s1 := if |buffer.toInvalidateKeys| > 0 && namespace !in invalidateFails
              then MapCaching.PutEntries(store, namespace, MapCaching.TombstoneEntries(buffer.toInvalidateKeys))
              else store;
    if key in buffer.toInvalidateKeys {
      assert |buffer.toInvalidateKeys| > 0;
    }
    if key in buffer.toSetObjects {
      assert |buffer.toSetObjects| > 0 by {
        assert key in buffer.toSetObjects.Keys;
      }
    }
    MapCaching.LookupPutEntries(store, namespace, MapCaching.TombstoneEntries(buffer.toInvalidateKeys), namespace, key);
    MapCaching.LookupPutEntries(s1, namespace, MapCaching.TripleEntries(AsTriples(buffer.toSetObjects)), namespace, key);
  }

  /** All namespaces' operations, in first-seen order. */
  function ApplyGroups<K(!new), V>(store: map<string, map<K, MapCaching.MapCacheEntry<V>>>,
                                   groups: seq<(string, OperationsBuffer<K, V>)>,
                                   invalidateFails: set<string>, setFails: set<string>)
    : map<string, map<K, MapCaching.MapCacheEntry<V>>>
    decreases |groups|
  {
    if groups == [] then store
    else
      var last := groups[|groups| - 1];
      ApplyNamespace(ApplyGroups(store, groups[..|groups| - 1], invalidateFails, setFails), last.0, last.1,
                     invalidateFails, setFails)
  }

  class TransactionAwareCacheSystem<K(==,!new), V> {
    const target: MapCaching.MapCacheSystem<K, V>
    const cacheType: string

    constructor(target: MapCaching.MapCacheSystem<K, V>, cacheType: string)
      ensures this.target == target && this.cacheType == cacheType
    {
      this.target := target;
      this.cacheType := cacheType;
    }

    /** `setObject`: written through outside a transaction; buffered inside one, when the
        transaction has a buffer. */
    method SetObject(namespace: string, key: K, value: V, ttlSeconds: int, forceInvalidation: bool,
                     inTransaction: bool, pending: PendingCacheOperations?<K, V>)
      requires pending != null ==> pending.Valid()
      modifies target, pending
      ensures !inTransaction ==>
                target.cacheMap == MapCaching.PutEntries(old(target.cacheMap), namespace,
                                                         map[key := MapCaching.MapCacheEntry(ttlSeconds, Some(value), forceInvalidation)])
      ensures !inTransaction && pending != null ==> pending.operations == old(pending.operations)
      ensures inTransaction ==> target.cacheMap == old(target.cacheMap)
      ensures inTransaction && pending != null ==>
                pending.Valid() &&
                pending.operations == Replaced(old(pending.operations), PendingKey(cacheType, namespace, key),
                                               Some(PendingOperation(value, ttlSeconds, forceInvalidation)))
    {
      if !inTransaction {
        target.SetObject(namespace, key, value, ttlSeconds, forceInvalidation);
      } else if pending != null {
        pending.AddCacheSet(cacheType, namespace, key, value, ttlSeconds, forceInvalidation);
      }
    }

    /** `invalidateObject`: done outside a transaction; buffered inside one. */
    method InvalidateObject(namespace: string, key: K, inTransaction: bool, pending: PendingCacheOperations?<K, V>)
      requires pending != null ==> pending.Valid()
      modifies target, pending
      ensures !inTransaction ==>
                target.cacheMap == MapCaching.PutEntries(old(target.cacheMap), namespace, map[key := MapCaching.Tombstone()])
      ensures !inTransaction && pending != null ==> pending.operations == old(pending.operations)
      ensures inTransaction ==> target.cacheMap == old(target.cacheMap)
      ensures inTransaction && pending != null ==>
                pending.Valid() &&
                pending.operations == Replaced(old(pending.operations), PendingKey(cacheType, namespace, key), None)
    {
      if !inTransaction {
        target.InvalidateObject(namespace, key);
      } else if pending != null {
        pending.AddInvalidation(cacheType, namespace, key);
      }
    }

    /** `setObjectList`, one TTL and flag for every value; inside a transaction, one
        buffered set per entry of `values` (an insertion-ordered map). */
    method SetObjectList(namespace: string, values: seq<(K, V)>, ttlSeconds: int, forceInvalidation: bool,
                         inTransaction: bool, pending: PendingCacheOperations?<K, V>)
      requires AssocLists.DistinctKeys(values)
      requires pending != null ==> pending.Valid()
      modifies target, pending
      ensures !inTransaction ==>
                target.cacheMap == MapCaching.PutEntries(old(target.cacheMap), namespace,
                                                         MapCaching.UniformEntries(AssocLists.ToMap(values), ttlSeconds, forceInvalidation))
      ensures !inTransaction && pending != null ==> pending.operations == old(pending.operations)
      ensures inTransaction ==> target.cacheMap == old(target.cacheMap)
      ensures inTransaction && pending != null ==>
                pending.Valid() &&
                pending.operations == WithSets(old(pending.operations), cacheType, namespace,
                                               UniformOperations(values, ttlSeconds, forceInvalidation))
    {
      if !inTransaction {
        target.SetObjectList(namespace, AssocLists.ToMap(values), ttlSeconds, forceInvalidation);
      } else if pending != null {
        BufferSets(namespace, UniformOperations(values, ttlSeconds, forceInvalidation), pending);
      }
    }

    /** `setObjectList` with a TTL and flag per value. */
    method SetObjectListEntries(namespace: string, values: seq<(K, (V, int, bool))>,
                                inTransaction: bool, pending: PendingCacheOperations?<K, V>)
      requires AssocLists.DistinctKeys(values)
      requires pending != null ==> pending.Valid()
      modifies target, pending
      ensures !inTransaction ==>
                target.cacheMap == MapCaching.PutEntries(old(target.cacheMap), namespace,
                                                         MapCaching.TripleEntries(AssocLists.ToMap(values)))
      ensures !inTransaction && pending != null ==> pending.operations == old(pending.operations)
      ensures inTransaction ==> target.cacheMap == old(target.cacheMap)
      ensures inTransaction && pending != null ==>
                pending.Valid() &&
                pending.operations == WithSets(old(pending.operations), cacheType, namespace, TripleOperations(values))
    {
      if !inTransaction {
        target.SetObjectListEntries(namespace, AssocLists.ToMap(values));
      } else if pending != null {
        BufferSets(namespace, TripleOperations(values), pending);
      }
    }

    /** `invalidateObjectList`; inside a transaction, one buffered invalidation per key. */
    method InvalidateObjectList(namespace: string, keys: seq<K>, inTransaction: bool, pending: PendingCacheOperations?<K, V>)
      requires pending != null ==> pending.Valid()
      modifies target, pending
      ensures !inTransaction ==>
                target.cacheMap == MapCaching.PutEntries(old(target.cacheMap), namespace, MapCaching.TombstoneEntries(keys))
      ensures !inTransaction && pending != null ==> pending.operations == old(pending.operations)
      ensures inTransaction ==> target.cacheMap == old(target.cacheMap)
      ensures inTransaction && pending != null ==>
                pending.Valid() &&
                pending.operations == WithInvalidations(old(pending.operations), cacheType, namespace, keys)
    {
      if !inTransaction {
        target.InvalidateObjectList(namespace, keys);
      } else if pending != null {
        var i := 0;
        while i < |keys|
          invariant 0 <= i <= |keys|
          invariant pending.Valid()
          invariant pending.operations == WithInvalidations(old(pending.operations), cacheType, namespace, keys[..i])
          invariant target.cacheMap == old(target.cacheMap)
        {
          pending.AddInvalidation(cacheType, namespace, keys[i]);
          assert keys[..i + 1][..i] == keys[..i];
          i := i + 1;
        }
        assert keys[..i] == keys;
      }
    }

    /** `values.forEach { pendingOperations?.addCacheSet(...) }`. */
    method BufferSets(namespace: string, sets: seq<(K, PendingOperation<V>)>, pending: PendingCacheOperations<K, V>)
      requires pending.Valid()
      modifies pending
      ensures pending.Valid()
      ensures pending.operations == WithSets(old(pending.operations), cacheType, namespace, sets)
    {
      var i := 0;
      while i < |sets|
        invariant 0 <= i <= |sets|
        invariant pending.Valid()
        invariant pending.operations == WithSets(old(pending.operations), cacheType, namespace, sets[..i])
      {
        pending.AddCacheSet(cacheType, namespace, sets[i].0, sets[i].1.value, sets[i].1.ttlSeconds, sets[i].1.forceInvalidation);
        assert sets[..i + 1][..i] == sets[..i];
        i := i + 1;
      }
      assert sets[..i] == sets;
    }

    /** `executeTransactionOperations`: this type's buffered operations, grouped per
        namespace and removed from the buffer, are applied namespace by namespace; the
        namespaces whose invalidation or set call fails are given. */
    method ExecuteTransactionOperations(pending: PendingCacheOperations<K, V>, invalidateFails: set<string>, setFails: set<string>)
      requires pending.Valid()
      modifies pending, target
      ensures pending.Valid()
      ensures pending.operations == AssocLists.RemoveAll(old(pending.operations), KeysOf(OfType(old(pending.operations), cacheType)))
      ensures target.cacheMap == ApplyGroups(old(target.cacheMap), Group(OfType(old(pending.operations), cacheType)),
                                             invalidateFails, setFails)
    {
      var groups := CollectOperations(pending);
      ApplyOperations(groups, invalidateFails, setFails);
    }

    /** The first pass of `executeTransactionOperations`: this type's operations are
        grouped per namespace and deleted from the buffer. */
    method CollectOperations(pending: PendingCacheOperations<K, V>) returns (groups: seq<(string, OperationsBuffer<K, V>)>)
      requires pending.Valid()
      modifies pending
      ensures pending.Valid()
      ensures pending.operations == AssocLists.RemoveAll(old(pending.operations), KeysOf(OfType(old(pending.operations), cacheType)))
      ensures groups == Group(OfType(old(pending.operations), cacheType))
    {
      var entries := OfType(pending.operations, cacheType);
      groups := [];
      var i := 0;
      assert KeysOf(entries[..0]) == {};
      RemoveNothing(pending.operations);
      while i < |entries|
        invariant 0 <= i <= |entries|
        invariant pending.Valid()
        invariant groups == Group(entries[..i])
        invariant pending.operations == AssocLists.RemoveAll(old(pending.operations), KeysOf(entries[..i]))
      {
        var e := entries[i];
        groups := AddToGroups(groups, e);
        AssocLists.RemoveAfterRemoveAll(old(pending.operations), KeysOf(entries[..i]), e.0);
        pending.DeleteOperation(e.0);
        PrefixStep(entries, i);
        i := i + 1;
      }
      assert entries[..i] == entries;
    }

    /** The second pass: every namespace's operations, in first-seen order. */
    method ApplyOperations(groups: seq<(string, OperationsBuffer<K, V>)>, invalidateFails: set<string>, setFails: set<string>)
      modifies target
      ensures target.cacheMap == ApplyGroups(old(target.cacheMap), groups, invalidateFails, setFails)
    {
      var j := 0;
      while j < |groups|
        invariant 0 <= j <= |groups|
        invariant target.cacheMap == ApplyGroups(old(target.cacheMap), groups[..j], invalidateFails, setFails)
      {
        ExecuteNamespaceTransactionOperations(groups[j].0, groups[j].1, invalidateFails, setFails);
        assert groups[..j + 1][..j] == groups[..j];
        j := j + 1;
      }
      assert groups[..j] == groups;
    }

    /** `executeNamespaceTransactionOperations`. */
    method ExecuteNamespaceTransactionOperations(namespace: string, buffer: OperationsBuffer<K, V>,
                                                 invalidateFails: set<string>, setFails: set<string>)
      modifies target
      ensures target.cacheMap == ApplyNamespace(old(target.cacheMap), namespace, buffer, invalidateFails, setFails)
    {
      if |buffer.toInvalidateKeys| > 0 && namespace !in invalidateFails {
        target.InvalidateObjectList(namespace, buffer.toInvalidateKeys);
      }
      if |buffer.toSetObjects| > 0 && namespace !in setFails {
        target.SetObjectListEntries(namespace, AsTriples(buffer.toSetObjects));
      }
    }
  }

  function UniformOperations<K, V>(values: seq<(K, V)>, ttlSeconds: int, forceInvalidation: bool)
    : (r: seq<(K, PendingOperation<V>)>)
    ensures |r| == |values|
    ensures forall i :: 0 <= i < |r| ==> r[i] == (values[i].0, PendingOperation(values[i].1, ttlSeconds, forceInvalidation))
  {
    seq(|values|, i requires 0 <= i < |values| => (values[i].0, PendingOperation(values[i].1, ttlSeconds, forceInvalidation)))
  }

  function TripleOperations<K, V>(values: seq<(K, (V, int, bool))>): (r: seq<(K, PendingOperation<V>)>)
    ensures |r| == |values|
    ensures forall i :: 0 <= i < |r| ==> r[i] == (values[i].0, PendingOperation(values[i].1.0, values[i].1.1, values[i].1.2))
  {
    seq(|values|, i requires 0 <= i < |values| => (values[i].0, PendingOperation(values[i].1.0, values[i].1.1, values[i].1.2)))
  }

  /** One more entry of a prefix: one more group step and one more key. */
  lemma PrefixStep<K, V>(entries: seq<Entry<K, V>>, i: nat)
    requires i < |entries|
    ensures Group(entries[..i + 1]) == AddToGroups(Group(entries[..i]), entries[i])
    ensures KeysOf(entries[..i + 1]) == KeysOf(entries[..i]) + {entries[i].0}
  {
    assert entries[..i + 1][..i] == entries[..i];
    assert forall j :: 0 <= j < i ==> entries[..i + 1][j] == entries[..i][j];
    assert entries[..i + 1][i] == entries[i];
  }

  lemma {:induction false} RemoveNothing<K, V>(s: seq<(K, V)>)
    ensures AssocLists.RemoveAll(s, {}) == s
  {
    if s != [] {
      RemoveNothing(s[1..]);
      assert s == [s[0]] + s[1..];
    }
  }
}
