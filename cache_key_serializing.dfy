/** Rendering of arbitrary cache keys as strings
    (io/github/andresviedma/poket/cache/utils/CacheKeySerializing.kt). */
module CacheKeySerializing {
  import opened Base
  import Strings

  const KeySeparator := "::"

  /** A cache key as the serializer sees it. Element and component values are given by
      their `toString()` renderings.
      - `Collection`: any Kotlin collection;
      - `DataObject`: an instance of a data class, with the values of its
        `component1()..componentN()` functions and its own `toString()`;
      - `Scalar`: any other value. */
  datatype CacheKey =
    | Scalar(text: string)
    | Collection(items: seq<string>)
    | DataObject(components: seq<string>, text: string)

  /** `tryDecompose`: the components of a data object, read one position at a time until
      a position has no component; the object itself when it has none; any other value as
      the only part. */
  method TryDecompose(key: CacheKey) returns (parts: seq<string>)
    requires !key.Collection?
    ensures key.Scalar? ==> parts == [key.text]
    ensures key.DataObject? && |key.components| > 0 ==> parts == key.components
    ensures key.DataObject? && |key.components| == 0 ==> parts == [key.text]
  {
    match key {
      case Scalar(text) =>
        parts := [text];
      case DataObject(components, text) =>
        var result: seq<string> := [];
        var found := true;
        while found
          invariant |result| <= |components|
          invariant result == components[..|result|]
          invariant !found ==> |result| == |components|
          decreases |components| - |result|, found
        {
          var position := |result| + 1;
          var component := GetComponent(components, position);
          found := component.Some?;
          if found {
            result := result + [component.value];
          }
        }
        parts := if |result| == 0 then [text] else result;
    }
  }

  /** `getComponent`: the value of `component<position>()`, if the class has one. */
  function GetComponent(components: seq<string>, position: nat): (r: Option<string>)
    ensures r.Some? <==> 1 <= position <= |components|
    ensures r.Some? ==> r.value == components[position - 1]
  {
    if 1 <= position <= |components| then Some(components[position - 1]) else None
  }

  /** The parts a key is rendered from. */
  function KeyParts(key: CacheKey): seq<string> {
    match key
    case Scalar(text) => [text]
    case Collection(items) => items
    case DataObject(components, text) => if |components| > 0 then components else [text]
  }

  /** The rendering of a key: its parts joined with "::"; a collection whose join is empty
      renders as "-". */
  function SimpleKey(key: CacheKey): string {
    var joined := Strings.Join(KeyParts(key), KeySeparator);
    if key.Collection? && joined == "" then "-" else joined
  }

  /** `simpleKeyToString`: a collection is joined directly, any other key is decomposed
      first. */
  method SimpleKeyToString(key: CacheKey) returns (s: string)
    ensures s == SimpleKey(key)
    ensures key.Collection? ==> s != ""
  {
    if key.Collection? {
      var joined := Strings.Join(key.items, KeySeparator);
      s := if joined == "" then "-" else joined;
    } else {
      var parts := TryDecompose(key);
      s := Strings.Join(parts, KeySeparator);
    }
  }

  /** `cacheKeyToString(namespace, key)`: "namespace::key", or only the key string when
      there is no namespace. */
  method CacheKeyToString(namespace: Option<string>, key: CacheKey) returns (s: string)
    ensures namespace.None? ==> s == SimpleKey(key)
    ensures namespace.Some? ==> s == namespace.value + KeySeparator + SimpleKey(key)
  {
    var simple := SimpleKeyToString(key);
    if namespace.Some? {
      var parts := [namespace.value, simple];
      assert parts[1..] == [simple];
      assert Strings.Join([simple], KeySeparator) == simple;
      assert Strings.Join(parts, KeySeparator) == parts[0] + KeySeparator + Strings.Join(parts[1..], KeySeparator);
      s := Strings.Join(parts, KeySeparator);
    } else {
      s := simple;
    }
  }

  /** A key string can be split back into its parts when no part contains ':' and the
      parts are not an empty collection. */
  lemma SimpleKeySplitsBack(key: CacheKey)
    requires |KeyParts(key)| >= 1 && Strings.Join(KeyParts(key), KeySeparator) != ""
    requires forall i :: 0 <= i < |KeyParts(key)| ==> ':' !in KeyParts(key)[i]
    ensures Strings.Split(SimpleKey(key), KeySeparator) == KeyParts(key)
  {
    Strings.SplitJoin(KeyParts(key), KeySeparator);
  }

  /** A namespaced key string starts with the namespace and the separator, and the
      namespace can be read back when it contains no ':'. */
  lemma NamespacedKeySplitsBack(namespace: string, key: CacheKey)
    requires ':' !in namespace
    ensures Strings.Split(namespace + KeySeparator + SimpleKey(key), KeySeparator)[0] == namespace
  {
    Strings.SplitAfterPiece(namespace, KeySeparator, SimpleKey(key));
  }

  /** A data object with two components renders as its components joined, "first::1" for
      `Pair("first", 1)`. */
  lemma PairKey(first: string, second: string)
    ensures SimpleKey(DataObject([first, second], "(" + first + ", " + second + ")")) == first + "::" + second
  {
    var parts := [first, second];
    assert KeyParts(DataObject(parts, "(" + first + ", " + second + ")")) == parts;
    assert parts[1..] == [second];
    assert Strings.Join(parts, KeySeparator) == first + KeySeparator + Strings.Join([second], KeySeparator);
  }
}
