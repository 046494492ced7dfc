/** The cache writes buffered during a transaction
    (io/github/andresviedma/poket/cache/decorators/ObjectCacheTransactionHandler.kt). */
module CachePending {
  import opened Base
  import AssocLists

  /** Which cached entry an operation is about: the cache type, namespace and key. */
  datatype PendingKey<K> = PendingKey(cacheType: string, namespace: string, key: K)

  /** A buffered write. A buffered invalidation is the absent operation. */
  datatype PendingOperation<V> = PendingOperation(value: V, ttlSeconds: int, forceInvalidation: bool)

  /** `map.remove(key); map[key] = op`: the entry moves to the end with its new operation. */
  function Replaced<K(==), V>(ops: seq<(PendingKey<K>, Option<PendingOperation<V>>)>, key: PendingKey<K>,
                              op: Option<PendingOperation<V>>): (r: seq<(PendingKey<K>, Option<PendingOperation<V>>)>)
    ensures |r| >= 1 && r[|r| - 1] == (key, op)
  {
    AssocLists.Remove(ops, key) + [(key, op)]
  }

  /** The last buffered operation for a key is the one that stays; every other key keeps
      its operation. */
  lemma LastOperationWins<K, V>(ops: seq<(PendingKey<K>, Option<PendingOperation<V>>)>, key: PendingKey<K>,
                                op: Option<PendingOperation<V>>, other: PendingKey<K>)
    requires AssocLists.DistinctKeys(ops)
    ensures AssocLists.DistinctKeys(Replaced(ops, key, op))
    ensures AssocLists.Get(Replaced(ops, key, op), other) ==
              if other == key then Some(op) else AssocLists.Get(ops, other)
  {
    AssocLists.RemoveThenAppend(ops, key, op, other);
  }

  /** `PendingCacheOperations`: an insertion-ordered map from keys to operations. */
  class PendingCacheOperations<K(==,!new), V> {
    var operations: seq<(PendingKey<K>, Option<PendingOperation<V>>)>

    predicate Valid()
      reads this
    {
      AssocLists.DistinctKeys(operations)
    }

    constructor()
      ensures operations == [] && Valid()
    {
      operations := [];
    }

    /** `addCacheSet`: replaces any operation buffered for the same key. */
    method AddCacheSet(systemId: string, namespace: string, key: K, value: V, ttl: int, forceInvalidation: bool)
      requires Valid()
      modifies this
      ensures Valid()
      ensures operations == Replaced(old(operations), PendingKey(systemId, namespace, key),
                                     Some(PendingOperation(value, ttl, forceInvalidation)))
    {
      var k := PendingKey(systemId, namespace, key);
      DeleteOperation(k);
      operations := operations + [(k, Some(PendingOperation(value, ttl, forceInvalidation)))];
      LastOperationWins(old(operations), k, Some(PendingOperation(value, ttl, forceInvalidation)), k);
    }

    /** `addInvalidation`: buffers the invalidation marker, replacing any earlier
        operation for the same key. */
    method AddInvalidation(systemId: string, namespace: string, key: K)
      requires Valid()
      modifies this
      ensures Valid()
      ensures operations == Replaced(old(operations), PendingKey(systemId, namespace, key), None)
    {
      var k := PendingKey(systemId, namespace, key);
      DeleteOperation(k);
      operations := operations + [(k, None)];
      LastOperationWins(old(operations), k, None, k);
    }

    /** `deleteOperation`: only that key's entry goes. */
    method DeleteOperation(key: PendingKey<K>)
      requires Valid()
      modifies this
      ensures Valid()
      ensures operations == AssocLists.Remove(old(operations), key)
    {
      operations := AssocLists.Remove(operations, key);
    }
  }
}

/** The transaction handler that applies the buffered cache writes on commit. */
module CacheTransactionHandler {
  import opened Base
  import AssocLists
  import CachePending
  import TransactionAwareCaching

  /** `startTransaction`: a fresh, empty buffer. */
  method StartTransaction<K(==,!new), V>() returns (data: CachePending.PendingCacheOperations<K, V>)
    ensures fresh(data) && data.operations == [] && data.Valid()
  {
    data := new CachePending.PendingCacheOperations();
  }

  /** `rollbackTransaction`: the buffered writes are dropped with the transaction; nothing
      is done. */
  method RollbackTransaction<K(==,!new), V>(data: CachePending.PendingCacheOperations?<K, V>)
    ensures data != null ==> unchanged(data)
  {
  }

  /** The cache types of the given systems. */
  function TypesOf<K(==,!new), V>(systems: seq<TransactionAwareCaching.TransactionAwareCacheSystem<K, V>>): set<string> {
    set i | 0 <= i < |systems| :: systems[i].cacheType
  }

  lemma TypesStep<K(!new), V>(systems: seq<TransactionAwareCaching.TransactionAwareCacheSystem<K, V>>, i: nat)
    requires i < |systems|
    ensures TypesOf(systems[..i + 1]) == TypesOf(systems[..i]) + {systems[i].cacheType}
  {
    assert forall j :: 0 <= j < i ==> systems[..i + 1][j] == systems[..i][j];
    assert systems[..i + 1][i] == systems[i];
  }

  /** `commitTransaction`: every used cache system executes its own buffered operations,
      one after another; a system's errors never stop the others. What stays in the buffer
      is exactly the operations of types no used system has. */
  method CommitTransaction<K(==,!new), V>(systems: seq<TransactionAwareCaching.TransactionAwareCacheSystem<K, V>>,
                                          data: CachePending.PendingCacheOperations?<K, V>,
                                          invalidateFails: set<string>, setFails: set<string>)
    requires data != null ==> data.Valid()
    modifies data, set s | s in systems :: s.target
    ensures data != null ==> data.Valid()
    ensures data != null ==> forall e :: e in data.operations <==>
              e in old(data.operations) && e.0.cacheType !in TypesOf(systems)
  {
    if data == null {
      return;
    }
    var i := 0;
    while i < |systems|
      invariant 0 <= i <= |systems|
      invariant data.Valid()
      invariant forall e :: e in data.operations <==> e in old(data.operations) && e.0.cacheType !in TypesOf(systems[..i])
    {
      ghost var before := data.operations;
      systems[i].ExecuteTransactionOperations(data, invalidateFails, setFails);
      TypesStep(systems, i);
      forall e
        ensures e in data.operations <==> e in before && e.0.cacheType != systems[i].cacheType
      {
        TransactionAwareCaching.RemainingOperations(before, systems[i].cacheType, e);
      }
      i := i + 1;
    }
    assert systems[..i] == systems;
  }
}
