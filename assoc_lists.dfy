/** Kotlin's LinkedHashMap as a value: a sequence of (key, value) entries with distinct
    keys, in insertion order. Putting an existing key keeps its position; removing a key
    and putting it again moves it to the end. */
module AssocLists {
  import opened Base

  predicate DistinctKeys<K(==), V>(s: seq<(K, V)>) {
    forall i, j :: 0 <= i < j < |s| ==> s[i].0 != s[j].0
  }

  function Keys<K, V>(s: seq<(K, V)>): (r: seq<K>)
    ensures |r| == |s| && forall i :: 0 <= i < |s| ==> r[i] == s[i].0
  {
    if s == [] then [] else [s[0].0] + Keys(s[1..])
  }

  predicate HasKey<K(==), V>(s: seq<(K, V)>, k: K) {
    exists i :: 0 <= i < |s| && s[i].0 == k
  }

  /** `map[k]`: the value of the first entry with key `k`. */
  function Get<K(==), V>(s: seq<(K, V)>, k: K): (r: Option<V>)
    ensures r.None? <==> !HasKey(s, k)
    ensures r.Some? ==> exists i :: 0 <= i < |s| && s[i] == (k, r.value)
  {
    if s == [] then None
    else if s[0].0 == k then Some(s[0].1)
    else
      var r := Get(s[1..], k);
      assert r.Some? ==> exists i :: 0 <= i < |s[1..]| && s[1..][i] == (k, r.value);
      assert HasKey(s[1..], k) ==> HasKey(s, k) by {
        if HasKey(s[1..], k) { var i :| 0 <= i < |s[1..]| && s[1..][i].0 == k; assert s[i + 1].0 == k; }
      }
      assert HasKey(s, k) ==> HasKey(s[1..], k) by {
        if HasKey(s, k) { var i :| 0 <= i < |s| && s[i].0 == k; assert i > 0 && s[1..][i - 1].0 == k; }
      }
      r
  }

  /** `map.remove(k)`. */
  function Remove<K(==), V>(s: seq<(K, V)>, k: K): (r: seq<(K, V)>)
    ensures |r| <= |s|
    ensures forall i :: 0 <= i < |r| ==> r[i] in s && r[i].0 != k
    ensures forall i :: 0 <= i < |s| && s[i].0 != k ==> s[i] in r
    ensures DistinctKeys(s) ==> DistinctKeys(r)
  {
    if s == [] then []
    else if s[0].0 == k then Remove(s[1..], k)
    else
      var rest := Remove(s[1..], k);
      assert forall i :: 1 <= i < |s| ==> s[i] == s[1..][i - 1];
      assert DistinctKeys(s) ==> DistinctKeys(s[1..]);
      assert DistinctKeys(s) ==> forall p :: p in rest ==> p.0 != s[0].0 by {
        if DistinctKeys(s) {
          forall p | p in rest ensures p.0 != s[0].0 {
            var i :| 0 <= i < |s[1..]| && s[1..][i] == p;
            assert s[i + 1] == p;
          }
        }
      }
      [s[0]] + rest
  }

  /** `map[k] = v`: replaces the value in place when `k` is present, else appends. */
  function Put<K(==), V>(s: seq<(K, V)>, k: K, v: V): (r: seq<(K, V)>)
    ensures HasKey(s, k) ==> |r| == |s| && Keys(r) == Keys(s)
    ensures !HasKey(s, k) ==> r == s + [(k, v)]
  {
    if s == [] then [(k, v)]
    else if s[0].0 == k then [(k, v)] + s[1..]
    else
      var rest := Put(s[1..], k, v);
      assert HasKey(s, k) ==> HasKey(s[1..], k) by {
        if HasKey(s, k) { var i :| 0 <= i < |s| && s[i].0 == k; assert s[1..][i - 1].0 == k; }
      }
      assert !HasKey(s, k) ==> !HasKey(s[1..], k) by {
        if HasKey(s[1..], k) { var i :| 0 <= i < |s[1..]| && s[1..][i].0 == k; assert s[i + 1].0 == k; }
      }
      [s[0]] + rest
  }

  /** After `map[k] = v`, `map[k]` is `v` and every other key keeps its value. */
  lemma {:induction false} GetPut<K, V>(s: seq<(K, V)>, k: K, v: V, k': K)
    ensures Get(Put(s, k, v), k') == if k' == k then Some(v) else Get(s, k')
  {
    if s != [] && s[0].0 != k {
      GetPut(s[1..], k, v, k');
      assert Put(s, k, v)[1..] == Put(s[1..], k, v);
    } else if s != [] {
      assert Put(s, k, v)[1..] == s[1..];
    }
  }

  /** `map[k] = v` keeps the keys distinct. */
  lemma PutDistinct<K, V>(s: seq<(K, V)>, k: K, v: V)
    requires DistinctKeys(s)
    ensures DistinctKeys(Put(s, k, v))
  {
    var r := Put(s, k, v);
    if HasKey(s, k) {
      assert forall i :: 0 <= i < |r| ==> r[i].0 == Keys(r)[i] == Keys(s)[i] == s[i].0;
    } else {
      assert forall i :: 0 <= i < |s| ==> s[i].0 != k;
    }
  }

  /** After `map.remove(k)`, `map[k]` is null and every other key keeps its value. */
  lemma {:induction false} GetRemove<K, V>(s: seq<(K, V)>, k: K, k': K)
    requires DistinctKeys(s)
    ensures Get(Remove(s, k), k') == if k' == k then None else Get(s, k')
  {
    if s == [] {
    } else if s[0].0 == k {
      GetRemove(s[1..], k, k');
      if k' == k {
      } else {
        assert Get(s, k') == Get(s[1..], k');
      }
    } else {
      GetRemove(s[1..], k, k');
      assert Remove(s, k)[1..] == Remove(s[1..], k);
    }
  }

  /** The entries whose keys are not in `ks`, in order. */
  function RemoveAll<K(==), V>(s: seq<(K, V)>, ks: set<K>): (r: seq<(K, V)>)
    ensures |r| <= |s|
  {
    if s == [] then []
    else (if s[0].0 in ks then [] else [s[0]]) + RemoveAll(s[1..], ks)
  }

  /** An entry survives `RemoveAll` exactly when it was there and its key is not removed. */
  lemma {:induction false} InRemoveAll<K, V>(s: seq<(K, V)>, ks: set<K>, e: (K, V))
    ensures e in RemoveAll(s, ks) <==> e in s && e.0 !in ks
  {
    if s != [] {
      InRemoveAll(s[1..], ks, e);
      assert s == [s[0]] + s[1..];
    }
  }

  /** Removing one more key from the survivors of `RemoveAll` is `RemoveAll` with that key
      added. */
  lemma {:induction false} RemoveAfterRemoveAll<K, V>(s: seq<(K, V)>, ks: set<K>, k: K)
    ensures Remove(RemoveAll(s, ks), k) == RemoveAll(s, ks + {k})
  {
    if s != [] {
      RemoveAfterRemoveAll(s[1..], ks, k);
      var t := RemoveAll(s[1..], ks);
      if s[0].0 in ks {
        assert RemoveAll(s, ks) == t;
      } else {
        var u := [s[0]] + t;
        assert RemoveAll(s, ks) == u;
        assert u[0] == s[0] && u[1..] == t;
        if s[0].0 == k {
          assert Remove(u, k) == Remove(t, k);
        } else {
          assert Remove(u, k) == [s[0]] + Remove(t, k);
        }
      }
    }
  }

  /** The Kotlin map as a Dafny map. */
  function ToMap<K(==,!new), V>(s: seq<(K, V)>): (r: map<K, V>)
    ensures forall k :: k in r <==> HasKey(s, k)
    ensures forall k :: k in r ==> Some(r[k]) == Get(s, k)
  {
    map k | k in Keys(s) :: Get(s, k).value
  }

  /** Removing a key and appending it again gives the key its new value, at the end, and
      keeps the keys distinct; every other key keeps its value. */
  lemma RemoveThenAppend<K, V>(s: seq<(K, V)>, k: K, v: V, k': K)
    requires DistinctKeys(s)
    ensures DistinctKeys(Remove(s, k) + [(k, v)])
    ensures Get(Remove(s, k) + [(k, v)], k') == if k' == k then Some(v) else Get(s, k')
  {
    var r := Remove(s, k);
    GetAppend(r, k, v, k');
    GetRemove(s, k, k');
    assert !HasKey(r, k);
  }

  /** `map[k]` after appending an entry: unchanged for keys already there. */
  lemma {:induction false} GetAppend<K, V>(s: seq<(K, V)>, k: K, v: V, k': K)
    ensures Get(s + [(k, v)], k') == if HasKey(s, k') then Get(s, k') else if k' == k then Some(v) else None
  {
    if s != [] {
      GetAppend(s[1..], k, v, k');
      assert (s + [(k, v)])[1..] == s[1..] + [(k, v)];
      if s[0].0 != k' {
        assert HasKey(s, k') == HasKey(s[1..], k') by {
          if HasKey(s, k') { var i :| 0 <= i < |s| && s[i].0 == k'; assert s[1..][i - 1].0 == k'; }
          if HasKey(s[1..], k') { var i :| 0 <= i < |s[1..]| && s[1..][i].0 == k'; assert s[i + 1].0 == k'; }
        }
      }
    }
  }
}
