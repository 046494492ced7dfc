/** The configuration property tree (io/github/andresviedma/poket/config/propertytree/
    ConfigPropertyTree.kt): nodes that are trees of named children, lists or values; dotted
    property names that address them; raw maps merged into them; and the raw (map, list and
    value) form they render to. */
module PropertyTrees {
  import opened Base
  import opened AssocLists
  import opened Sorting
  import Strings
  import Numbers

  /** The JSON-like values a configuration leaf holds. */
  datatype Scalar = Text(text: string) | Number(number: int) | Flag(flag: bool)

  /** `ConfigNode`: a tree whose children are a `LinkedHashMap` (insertion order, distinct
      keys), a list, or a value. */
  datatype ConfigNode =
    | TreeNode(children: seq<(string, ConfigNode)>)
    | ListNode(elements: seq<ConfigNode>)
    | ValueNode(value: Scalar)

  type Children = seq<(string, ConfigNode)>

  /** The raw form: null, a value, a map (distinct keys, in order) or a list. */
  datatype Raw = RawNull | RawValue(value: Scalar) | RawMap(entries: seq<(string, Raw)>) | RawList(items: seq<Raw>)

  /** `PropertyKey.fromPropertyName`: the trimmed name split at every dot, each part trimmed.
      A split always has a part, so the key is never null. */
  function PropertyPath(property: string): (path: seq<string>)
    ensures |path| >= 1
  {
    TrimParts(Strings.Split(Strings.Trim(property), "."))
  }

  /** Every part trimmed. */
  function TrimParts(parts: seq<string>): (r: seq<string>)
    ensures |r| == |parts| && forall i :: 0 <= i < |parts| ==> r[i] == Strings.Trim(parts[i])
  {
    seq(|parts|, i requires 0 <= i < |parts| => Strings.Trim(parts[i]))
  }

  /** A property part that reads back as itself: not empty, no dot, no whitespace at its
      ends. */
  predicate PlainPart(p: string) {
    |p| >= 1 && '.' !in p && !Strings.IsWhitespace(p[0]) && !Strings.IsWhitespace(p[|p| - 1])
  }

  lemma TrimKeepsPlain(s: string)
    requires |s| == 0 || (!Strings.IsWhitespace(s[0]) && !Strings.IsWhitespace(s[|s| - 1]))
    ensures Strings.Trim(s) == s
  {
    assert Strings.TrimStart(s) == s;
  }

  /** The dotted name of plain parts starts and ends with no whitespace. */
  lemma DottedNameEnds(path: seq<string>)
    requires |path| >= 1 && forall i :: 0 <= i < |path| ==> PlainPart(path[i])
    ensures var name := Strings.Join(path, ".");
            |name| >= 1 && !Strings.IsWhitespace(name[0]) && !Strings.IsWhitespace(name[|name| - 1])
  {
    var n := |path|;
    if n > 1 {
      assert PlainPart(path[0]) && PlainPart(path[n - 1]);
      assert Strings.Join(path, ".") == path[0] + "." + Strings.Join(path[1..], ".");
      Strings.JoinAppend(path[..n - 1], path[n - 1], ".");
      assert path[..n - 1] + [path[n - 1]] == path;
    }
  }

  lemma TrimPlainParts(path: seq<string>)
    requires forall i :: 0 <= i < |path| ==> PlainPart(path[i])
    ensures TrimParts(path) == path
  {
    forall i | 0 <= i < |path| ensures TrimParts(path)[i] == path[i] {
      TrimKeepsPlain(path[i]);
    }
  }

  /** The dotted name of plain parts has nothing to trim. */
  lemma TrimDottedName(path: seq<string>)
    requires |path| >= 1 && forall i :: 0 <= i < |path| ==> PlainPart(path[i])
    ensures Strings.Trim(Strings.Join(path, ".")) == Strings.Join(path, ".")
  {
    DottedNameEnds(path);
    TrimKeepsPlain(Strings.Join(path, "."));
  }

  /** The dotted name of dot-free parts splits back into them. */
  lemma SplitDottedName(path: seq<string>)
    requires |path| >= 1 && forall i :: 0 <= i < |path| ==> PlainPart(path[i])
    ensures Strings.Split(Strings.Join(path, "."), ".") == path
  {
    assert forall i :: 0 <= i < |path| ==> "."[0] !in path[i];
    Strings.SplitJoin(path, ".");
  }

  /** The dotted name of a path of plain parts is read back as that path. */
  lemma PropertyPathOfDottedName(path: seq<string>)
    requires |path| >= 1 && forall i :: 0 <= i < |path| ==> PlainPart(path[i])
    ensures PropertyPath(Strings.Join(path, ".")) == path
  {
    TrimDottedName(path);
    SplitDottedName(path);
    TrimPlainParts(path);
  }

  /** `getChildTree(key)`: the child under `key` when it is a tree. */
  function ChildTree(t: Children, key: string): (r: Option<Children>)
    ensures r.Some? <==> Get(t, key).Some? && Get(t, key).value.TreeNode?
    ensures r.Some? ==> Get(t, key) == Some(TreeNode(r.value))
  {
    var c := Get(t, key);
    if c.Some? && c.value.TreeNode? then Some(c.value.children) else None
  }

  /** `getPropertyValue(key)`: the node at the end of the path; every step before the last
      has to go through a tree. */
  function PropertyValue(t: Children, path: seq<string>): Option<ConfigNode>
    requires |path| >= 1
    decreases |path|
  {
    if |path| == 1 then Get(t, path[0])
    else
      var c := ChildTree(t, path[0]);
      if c.None? then None else PropertyValue(c.value, path[1..])
  }

  /** An empty tree holds nothing at any path. */
  lemma EmptyTreeHoldsNothing(path: seq<string>)
    requires |path| >= 1
    ensures PropertyValue([], path) == None
  {
  }

  /** `getPropertyNode(property)`. */
  function PropertyNode(t: Children, property: string): Option<ConfigNode> {
    PropertyValue(t, PropertyPath(property))
  }

  /** `getSubtreeNode(property)`: the node at the property, when it is a tree. */
  function SubtreeNode(t: Children, property: string): (r: Option<Children>)
    ensures r.Some? <==> PropertyNode(t, property).Some? && PropertyNode(t, property).value.TreeNode?
    ensures r.Some? ==> PropertyNode(t, property) == Some(TreeNode(r.value))
  {
    var n := PropertyNode(t, property);
    if n.Some? && n.value.TreeNode? then Some(n.value.children) else None
  }

  /** `addProperty` on a path: `getOrCreateSubtree` walks every part but the last, keeping a
      tree found there and otherwise putting a new empty tree in place of what was there;
      `setValue` then puts the value under the last part. */
  function WithProperty(t: Children, path: seq<string>, v: Scalar): Children
    requires |path| >= 1
    decreases |path|
  {
    if |path| == 1 then Put(t, path[0], ValueNode(v))
    else Put(t, path[0], TreeNode(WithProperty(ChildTree(t, path[0]).GetOr([]), path[1..], v)))
  }

  /** After `addProperty`, the path holds the value, whatever was on the way before. */
  lemma {:induction false} PropertyIsSet(t: Children, path: seq<string>, v: Scalar)
    requires |path| >= 1
    ensures PropertyValue(WithProperty(t, path, v), path) == Some(ValueNode(v))
    decreases |path|
  {
    if |path| == 1 {
      GetPut(t, path[0], ValueNode(v), path[0]);
    } else {
      var child := ChildTree(t, path[0]).GetOr([]);
      PropertyIsSet(child, path[1..], v);
      GetPut(t, path[0], TreeNode(WithProperty(child, path[1..], v)), path[0]);
    }
  }

  /** After `addProperty`, nothing is left below the path: a value set at a prefix replaces
      the subtree that was there. */
  lemma {:induction false} PropertyPrunesBelow(t: Children, path: seq<string>, v: Scalar, rest: seq<string>)
    requires |path| >= 1 && |rest| >= 1
    ensures PropertyValue(WithProperty(t, path, v), path + rest) == None
    decreases |path|
  {
    var full := path + rest;
    assert full[0] == path[0] && full[1..] == path[1..] + rest;
    if |path| == 1 {
      GetPut(t, path[0], ValueNode(v), path[0]);
    } else {
      var child := ChildTree(t, path[0]).GetOr([]);
      PropertyPrunesBelow(child, path[1..], v, rest);
      GetPut(t, path[0], TreeNode(WithProperty(child, path[1..], v)), path[0]);
    }
  }

  /** `addProperty` leaves alone every path that leaves its path before the end of both. */
  lemma {:induction false} PropertyLeavesOtherPaths(t: Children, path: seq<string>, v: Scalar, other: seq<string>, d: nat)
    requires d < |path| && d < |other| && other[..d] == path[..d] && other[d] != path[d]
    ensures PropertyValue(WithProperty(t, path, v), other) == PropertyValue(t, other)
    decreases d
  {
    if d == 0 {
      if |path| == 1 {
        GetPut(t, path[0], ValueNode(v), other[0]);
      } else {
        var child := ChildTree(t, path[0]).GetOr([]);
        GetPut(t, path[0], TreeNode(WithProperty(child, path[1..], v)), other[0]);
      }
    } else {
      assert other[0] == other[..d][0] == path[..d][0] == path[0];
      var child := ChildTree(t, path[0]).GetOr([]);
      var inner := WithProperty(child, path[1..], v);
      assert other[1..][..d - 1] == other[..d][1..] == path[..d][1..] == path[1..][..d - 1];
      PropertyLeavesOtherPaths(child, path[1..], v, other[1..], d - 1);
      assert WithProperty(t, path, v) == Put(t, path[0], TreeNode(inner));
      GetPut(t, path[0], TreeNode(inner), path[0]);
      assert ChildTree(WithProperty(t, path, v), other[0]) == Some(inner);
      assert PropertyValue(WithProperty(t, path, v), other) == PropertyValue(inner, other[1..]);
      if ChildTree(t, path[0]).None? {
        EmptyTreeHoldsNothing(other[1..]);
      } else {
        assert PropertyValue(t, other) == PropertyValue(child, other[1..]);
      }
    }
  }

  /** `addProperty` keeps the keys of the tree distinct. */
  lemma WithPropertyKeepsDistinct(t: Children, path: seq<string>, v: Scalar)
    requires |path| >= 1 && DistinctKeys(t)
    ensures DistinctKeys(WithProperty(t, path, v))
  {
    if |path| == 1 {
      PutDistinct(t, path[0], ValueNode(v));
    } else {
      PutDistinct(t, path[0], TreeNode(WithProperty(ChildTree(t, path[0]).GetOr([]), path[1..], v)));
    }
  }

  /** `toNode` of a raw value that is not null: a map becomes a tree, a list a list without
      its nulls, anything else a value. */
  function ToNode(r: Raw): (n: ConfigNode)
    requires !r.RawNull?
    ensures r.RawValue? <==> n.ValueNode?
    ensures r.RawValue? ==> n.value == r.value
    ensures r.RawList? <==> n.ListNode?
    ensures r.RawList? ==> |n.elements| <= |r.items|
    ensures r.RawMap? <==> n.TreeNode?
    ensures r.RawMap? ==> |n.children| <= |r.entries|
    decreases r, 1
  {
    match r
    case RawValue(v) => ValueNode(v)
    case RawList(items) => ListNode(ItemsToNodes(items))
    case RawMap(m) => TreeNode(EntriesToNodes(m, 0))
  }

  function ItemsToNodes(items: seq<Raw>): (r: seq<ConfigNode>)
    ensures |r| <= |items|
    decreases items
  {
    if items == [] then []
    else (if items[0].RawNull? then [] else [ToNode(items[0])]) + ItemsToNodes(items[1..])
  }

  function EntriesToNodes(m: seq<(string, Raw)>, i: nat): (r: Children)
    requires i <= |m|
    ensures |r| <= |m| - i
    decreases RawMap(m), 0, |m| - i
  {
    if i == |m| then []
    else
      assert m[i] in m;
      (if m[i].1.RawNull? then [] else [(m[i].0, ToNode(m[i].1))]) + EntriesToNodes(m, i + 1)
  }

  /** One entry of `addRawMap`: a null removes the key, a map is merged into the child tree
      (a new empty tree when the child is missing or not a tree), anything else replaces the
      child. */
  function MergeEntry(t: Children, key: string, value: Raw): Children
    decreases value, if value.RawMap? then |value.entries| + 1 else 0
  {
    match value
    case RawNull => Remove(t, key)
    case RawMap(m) => Put(t, key, TreeNode(MergeRawFrom(ChildTree(t, key).GetOr([]), m, 0)))
    case _ => Put(t, key, ToNode(value))
  }

  /** `addRawMap`, from the `i`-th entry of the raw map on. */
  function MergeRawFrom(t: Children, raw: seq<(string, Raw)>, i: nat): Children
    requires i <= |raw|
    decreases RawMap(raw), |raw| - i
  {
    if i == |raw| then t
    else
      assert raw[i] in raw;
      MergeRawFrom(MergeEntry(t, raw[i].0, raw[i].1), raw, i + 1)
  }

  /** `addRawMap(tree)`. */
  function MergeRaw(t: Children, raw: seq<(string, Raw)>): Children {
    MergeRawFrom(t, raw, 0)
  }

  /** One entry keeps the keys distinct, sets its own key as `addRawMap` promises and leaves
      the others alone. */
  lemma MergeEntryGet(t: Children, key: string, value: Raw, k: string)
    requires DistinctKeys(t)
    ensures DistinctKeys(MergeEntry(t, key, value))
    ensures Get(MergeEntry(t, key, value), k) == if k == key then MergedEntry(Get(t, k), value) else Get(t, k)
  {
    if value.RawNull? {
      GetRemove(t, key, k);
    } else {
      var node := if value.RawMap? then TreeNode(MergeRawFrom(ChildTree(t, key).GetOr([]), value.entries, 0)) else ToNode(value);
      assert MergeEntry(t, key, value) == Put(t, key, node);
      PutDistinct(t, key, node);
      GetPut(t, key, node, k);
    }
  }

  /** What `addRawMap` leaves under a key the raw map names, given what was there: nothing
      for a null, the merge of a map into the child tree (or into an empty tree when the child
      is not a tree), and otherwise the new node. */
  function MergedEntry(previous: Option<ConfigNode>, value: Raw): Option<ConfigNode> {
    match value
    case RawNull => None
    case RawMap(m) =>
      Some(TreeNode(MergeRaw(if previous.Some? && previous.value.TreeNode? then previous.value.children else [], m)))
    case _ => Some(ToNode(value))
  }

  lemma {:induction false} MergeRawFromGet(t: Children, raw: seq<(string, Raw)>, i: nat, k: string)
    requires i <= |raw| && DistinctKeys(t) && DistinctKeys(raw)
    ensures DistinctKeys(MergeRawFrom(t, raw, i))
    ensures Get(MergeRawFrom(t, raw, i), k) ==
              if HasKey(raw[i..], k) then MergedEntry(Get(t, k), Get(raw[i..], k).value) else Get(t, k)
    decreases |raw| - i
  {
    if i < |raw| {
      var key := raw[i].0;
      var next := MergeEntry(t, key, raw[i].1);
      MergeEntryGet(t, key, raw[i].1, k);
      MergeRawFromGet(next, raw, i + 1, k);
      assert raw[i..][0] == raw[i] && raw[i..][1..] == raw[i + 1..];
      if key == k {
        assert !HasKey(raw[i + 1..], k);
      } else {
        assert HasKey(raw[i..], k) == HasKey(raw[i + 1..], k) by {
          if HasKey(raw[i..], k) {
            var j :| 0 <= j < |raw[i..]| && raw[i..][j].0 == k;
            assert j > 0 && raw[i + 1..][j - 1].0 == k;
          }
          if HasKey(raw[i + 1..], k) {
            var j :| 0 <= j < |raw[i + 1..]| && raw[i + 1..][j].0 == k;
            assert raw[i..][j + 1].0 == k;
          }
        }
      }
    } else {
      assert raw[i..] == [];
    }
  }

  /** `addRawMap` keeps the keys distinct, works key by key, and leaves every key the raw map
      does not name as it was. */
  lemma MergeRawGet(t: Children, raw: seq<(string, Raw)>, k: string)
    requires DistinctKeys(t) && DistinctKeys(raw)
    ensures DistinctKeys(MergeRaw(t, raw))
    ensures Get(MergeRaw(t, raw), k) == if HasKey(raw, k) then MergedEntry(Get(t, k), Get(raw, k).value) else Get(t, k)
  {
    MergeRawFromGet(t, raw, 0, k);
    assert raw[0..] == raw;
  }

  /** The exception `toInt()` throws on a key `parseUnsignedInt` accepted but that is above
      2^31 - 1. The message is not modelled. */
  const NumberFormat := Exception({"NumberFormatException", "IllegalArgumentException", "RuntimeException", "Exception", "Throwable"}, "For input string")

  /** Every key reads as an unsigned 32-bit integer (`Integer.parseUnsignedInt`). */
  predicate AllUnsignedKeys<V>(cs: seq<(string, V)>) {
    forall i :: 0 <= i < |cs| ==> Numbers.ParseUnsignedInt(cs[i].0).Some?
  }

  /** Every key reads as a signed 32-bit integer (`toInt()`). */
  predicate AllIntKeys<V>(cs: seq<(string, V)>) {
    forall i :: 0 <= i < |cs| ==> Numbers.ParseIntOfUnsigned(cs[i].0).Some?
  }

  /** The numeric value of an index key, the sort key of the list detection. */
  function KeyIndex(e: (string, Raw)): int {
    Numbers.ParseUnsignedInt(e.0).GetOr(0)
  }

  function Values<K, V>(s: seq<(K, V)>): (r: seq<V>)
    ensures |r| == |s| && forall i :: 0 <= i < |s| ==> r[i] == s[i].1
  {
    seq(|s|, i requires 0 <= i < |s| => s[i].1)
  }

  /** `toRaw()`: a value gives itself, a list the list of its elements' raw forms, and a
      tree whose keys all read as unsigned integers (an empty tree included) the list of its
      children's raw forms ordered by key (`sortedBy { it.key.toInt() }`); any other tree
      gives the map of its children's raw forms. The sort evaluates `toInt()` only when there
      are two children or more. The children are rendered before the sort here and after it
      in the source; both can only throw `NumberFormat`, so the outcome is the same. */
  function ToRaw(n: ConfigNode): (r: Outcome<Raw>)
    ensures r.Ok? ==> !r.value.RawNull?
    decreases n, 2
  {
    match n
    case ValueNode(v) => Ok(RawValue(v))
    case ListNode(es) =>
      var items := ElementsToRaw(es);
      if items.Thrown? then Thrown(items.error) else Ok(RawList(items.value))
    case TreeNode(cs) =>
      var raws := ChildrenToRaw(cs);
      if raws.Thrown? then Thrown(raws.error)
      else if AllUnsignedKeys(cs) then
        if |cs| >= 2 && !AllIntKeys(cs) then Thrown(NumberFormat)
        else Ok(RawList(Values(SortBy(raws.value, KeyIndex))))
      else Ok(RawMap(raws.value))
  }

  /** `elements.map { it.toRaw() }`. */
  function ElementsToRaw(es: seq<ConfigNode>): Outcome<seq<Raw>>
    decreases es
  {
    if es == [] then Ok([])
    else
      var head := ToRaw(es[0]);
      var rest := ElementsToRaw(es[1..]);
      if head.Thrown? then Thrown(head.error)
      else if rest.Thrown? then Thrown(rest.error)
      else Ok([head.value] + rest.value)
  }

  /** Each child's key with the outcome of its raw form. */
  function ChildOutcomes(cs: Children): seq<(string, Outcome<Raw>)>
    decreases TreeNode(cs), 0
  {
    seq(|cs|, j requires 0 <= j < |cs| => assert cs[j] in cs; (cs[j].0, ToRaw(cs[j].1)))
  }

  /** `children.mapValues { it.toRaw() }`. */
  function ChildrenToRaw(cs: Children): Outcome<seq<(string, Raw)>>
    decreases TreeNode(cs), 1
  {
    Collect(ChildOutcomes(cs))
  }

  /** The entries in order while every outcome is a value; the first exception otherwise. */
  function Collect<K, X>(os: seq<(K, Outcome<X>)>): Outcome<seq<(K, X)>> {
    if os == [] then Ok([])
    else
      var rest := Collect(os[1..]);
      if os[0].1.Thrown? then Thrown(os[0].1.error)
      else if rest.Thrown? then Thrown(rest.error)
      else Ok([(os[0].0, os[0].1.value)] + rest.value)
  }

  /** `toRawMap()`. */
  function ToRawMap(t: Children): Outcome<seq<(string, Raw)>> {
    ChildrenToRaw(t)
  }

  /** Collecting succeeds exactly when every outcome is a value, and then gives an entry
      per outcome, under the same key and in the same order. */
  lemma {:induction false} CollectShape<K, X>(os: seq<(K, Outcome<X>)>)
    ensures Collect(os).Ok? <==> forall j :: 0 <= j < |os| ==> os[j].1.Ok?
    ensures Collect(os).Ok? ==>
              var r := Collect(os).value;
              |r| == |os| && forall j :: 0 <= j < |os| ==> r[j] == (os[j].0, os[j].1.value)
  {
    if os != [] {
      CollectShape(os[1..]);
      if Collect(os).Ok? {
        assert Collect(os).value[1..] == Collect(os[1..]).value;
      }
    }
  }

  /** The raw map has an entry per child, under the same key and in the same order, holding
      the child's raw form; it fails exactly when some child's raw form fails. */
  lemma ChildrenToRawShape(cs: Children)
    ensures ChildrenToRaw(cs).Ok? <==> forall j :: 0 <= j < |cs| ==> ToRaw(cs[j].1).Ok?
    ensures ChildrenToRaw(cs).Ok? ==>
              var r := ChildrenToRaw(cs).value;
              |r| == |cs| && forall j :: 0 <= j < |cs| ==> r[j] == (cs[j].0, ToRaw(cs[j].1).value)
  {
    var os := ChildOutcomes(cs);
    CollectShape(os);
    assert forall j :: 0 <= j < |cs| ==> os[j] == (cs[j].0, ToRaw(cs[j].1));
  }

  /** The raw map keeps the keys of the tree, so they stay distinct. */
  lemma ToRawMapKeys(t: Children)
    requires ToRawMap(t).Ok?
    ensures Keys(ToRawMap(t).value) == Keys(t)
    ensures DistinctKeys(t) ==> DistinctKeys(ToRawMap(t).value)
  {
    ChildrenToRawShape(t);
  }

  /** A tree whose keys all read as indexes that fit an `Int` renders as the list of its
      children's raw forms ordered by index. */
  lemma TreeOfIndexesIsList(cs: Children)
    requires AllUnsignedKeys(cs) && AllIntKeys(cs) && ToRawMap(cs).Ok?
    ensures exists s :: ToRaw(TreeNode(cs)) == Ok(RawList(Values(s))) &&
                        SortedBy(s, KeyIndex) && multiset(s) == multiset(ToRawMap(cs).value)
    ensures ToRaw(TreeNode(cs)) == Ok(RawList(Values(SortBy(ToRawMap(cs).value, KeyIndex))))
  {
    var s := SortBy(ToRawMap(cs).value, KeyIndex);
    assert ToRaw(TreeNode(cs)) == Ok(RawList(Values(s)));
  }

  /** A tree with a key that is not an index renders as the map of its children's raw forms. */
  lemma TreeWithNameIsMap(cs: Children, k: nat)
    requires k < |cs| && Numbers.ParseUnsignedInt(cs[k].0).None? && ToRawMap(cs).Ok?
    ensures ToRaw(TreeNode(cs)) == Ok(RawMap(ToRawMap(cs).value))
  {
  }

  /** Two index keys or more, one of them above 2^31 - 1, make the rendering throw. */
  lemma LargeIndexThrows(cs: Children, k: nat)
    requires AllUnsignedKeys(cs) && |cs| >= 2 && k < |cs| && Numbers.ParseUnsignedInt(cs[k].0).value > Numbers.MaxInt
    requires ToRawMap(cs).Ok?
    ensures ToRaw(TreeNode(cs)) == Thrown(NumberFormat)
  {
    assert Numbers.ParseIntOfUnsigned(cs[k].0).None?;
  }

  /** `propertyToRaw(property)`: the raw form of the node at the property, null when there
      is none. */
  function PropertyToRaw(t: Children, property: string): (r: Outcome<Raw>)
    ensures r == Ok(RawNull) <==> PropertyNode(t, property).None?
  {
    var n := PropertyNode(t, property);
    if n.None? then Ok(RawNull) else ToRaw(n.value)
  }

  /** `overriddenWith(tree)`: the tree itself when there is no override, otherwise a copy with
      the override's raw map merged in. Values are immutable here, so the copy is the value
      itself and the original cannot change. */
  function OverriddenChildren(t: Children, tree: Option<Children>): (r: Outcome<Children>)
    ensures tree.None? ==> r == Ok(t)
  {
    if tree.None? then Ok(t)
    else
      var raw := ToRawMap(tree.value);
      if raw.Thrown? then Thrown(raw.error) else Ok(MergeRaw(t, raw.value))
  }

  /** In a map with distinct keys, the entry at a position is what `Get` finds. */
  lemma GetAtPosition<V>(s: seq<(string, V)>, j: nat)
    requires DistinctKeys(s) && j < |s|
    ensures Get(s, s[j].0) == Some(s[j].1)
  {
  }

  /** Overriding keeps every key the override lacks, and merges the raw form of every node it
      has; a value in the override replaces what was there. */
  lemma OverrideByKey(t: Children, o: Children, k: string)
    requires DistinctKeys(t) && DistinctKeys(o) && OverriddenChildren(t, Some(o)).Ok?
    ensures DistinctKeys(OverriddenChildren(t, Some(o)).value)
    ensures !HasKey(o, k) ==> Get(OverriddenChildren(t, Some(o)).value, k) == Get(t, k)
    ensures HasKey(o, k) ==> ToRaw(Get(o, k).value).Ok?
    ensures HasKey(o, k) ==>
              Get(OverriddenChildren(t, Some(o)).value, k) == MergedEntry(Get(t, k), ToRaw(Get(o, k).value).value)
    ensures HasKey(o, k) && Get(o, k).value.ValueNode? ==> Get(OverriddenChildren(t, Some(o)).value, k) == Get(o, k)
  {
    var raw := ToRawMap(o).value;
    assert OverriddenChildren(t, Some(o)) == Ok(MergeRaw(t, raw));
    RawMapGet(o, k);
    ToRawMapKeys(o);
    MergeRawGet(t, raw, k);
    if HasKey(o, k) && Get(o, k).value.ValueNode? {
      var v := Get(o, k).value.value;
      assert ToRaw(Get(o, k).value) == Ok(RawValue(v));
      assert MergedEntry(Get(t, k), RawValue(v)) == Some(ValueNode(v));
    }
  }

  /** The raw map finds under a key the raw form of the child there. */
  lemma RawMapGet(o: Children, k: string)
    requires DistinctKeys(o) && ToRawMap(o).Ok?
    ensures HasKey(ToRawMap(o).value, k) <==> HasKey(o, k)
    ensures HasKey(o, k) ==> ToRaw(Get(o, k).value).Ok? && Get(ToRawMap(o).value, k) == Some(ToRaw(Get(o, k).value).value)
  {
    var raw := ToRawMap(o).value;
    ToRawMapKeys(o);
    ChildrenToRawShape(o);
    if HasKey(o, k) {
      var j :| 0 <= j < |o| && o[j] == (k, Get(o, k).value);
      assert raw[j].0 == k;
      GetAtPosition(o, j);
      GetAtPosition(raw, j);
    }
    if HasKey(raw, k) {
      var j :| 0 <= j < |raw| && raw[j].0 == k;
      assert o[j].0 == k;
    }
  }

  /** The raw map of one property path in an empty tree: a map per part, nested. */
  function NestedRaw(path: seq<string>, v: Scalar): seq<(string, Raw)>
    requires |path| >= 1
    decreases |path|
  {
    if |path| == 1 then [(path[0], RawValue(v))] else [(path[0], RawMap(NestedRaw(path[1..], v)))]
  }

  /** `addProperty("a.b.c", v)` on an empty tree renders as nested maps a, b, then c = v,
      when no part reads as an index. */
  lemma {:induction false} PropertyInEmptyTreeNests(path: seq<string>, v: Scalar)
    requires |path| >= 1 && forall i :: 0 <= i < |path| ==> Numbers.ParseUnsignedInt(path[i]).None?
    ensures ToRawMap(WithProperty([], path, v)) == Ok(NestedRaw(path, v))
    decreases |path|
  {
    if |path| > 1 {
      var inner := WithProperty([], path[1..], v);
      PropertyInEmptyTreeNests(path[1..], v);
      assert inner[0].0 == path[1];
      assert !AllUnsignedKeys(inner);
      assert ToRaw(TreeNode(inner)) == Ok(RawMap(NestedRaw(path[1..], v)));
      assert WithProperty([], path, v) == [(path[0], TreeNode(inner))];
      SingleChildToRaw(path[0], TreeNode(inner));
    } else {
      assert WithProperty([], path, v) == [(path[0], ValueNode(v))];
      SingleChildToRaw(path[0], ValueNode(v));
    }
  }

  lemma SingleChildToRaw(key: string, n: ConfigNode)
    requires ToRaw(n).Ok?
    ensures ToRawMap([(key, n)]) == Ok([(key, ToRaw(n).value)])
  {
    ChildrenToRawShape([(key, n)]);
    var r := ToRawMap([(key, n)]).value;
    assert |r| == 1 && r[0] == (key, ToRaw(n).value);
    assert r == [(key, ToRaw(n).value)];
  }

  /** `addProperties`: each property added in turn. */
  function WithProperties(t: Children, properties: seq<(string, string)>): Children
    decreases |properties|
  {
    if properties == [] then t
    else
      var last := properties[|properties| - 1];
      WithProperty(WithProperties(t, properties[..|properties| - 1]), PropertyPath(last.0), Text(last.1))
  }

  /** `addRawMaps`: each raw map merged in turn. */
  function MergeRaws(t: Children, trees: seq<seq<(string, Raw)>>): Children
    decreases |trees|
  {
    if trees == [] then t else MergeRaw(MergeRaws(t, trees[..|trees| - 1]), trees[|trees| - 1])
  }

  /** `ConfigNode.TreeNode` as the object the source mutates: its children map is replaced as a
      whole by every change. */
  class PropertyTree {
    var children: Children

    predicate Valid()
      reads this
    {
      DistinctKeys(children)
    }

    constructor()
      ensures Valid() && children == []
    {
      children := [];
    }

    /** `addProperty(property, value)`. */
    method AddProperty(property: string, value: Scalar)
      requires Valid()
      modifies this
      ensures Valid() && children == WithProperty(old(children), PropertyPath(property), value)
    {
      WithPropertyKeepsDistinct(children, PropertyPath(property), value);
      children := WithProperty(children, PropertyPath(property), value);
    }

    /** `addProperties(properties)`. */
    method AddProperties(properties: seq<(string, string)>)
      requires Valid()
      modifies this
      ensures Valid() && children == WithProperties(old(children), properties)
    {
      var i := 0;
      while i < |properties|
        invariant 0 <= i <= |properties| && Valid()
        invariant children == WithProperties(old(children), properties[..i])
      {
        AddProperty(properties[i].0, Text(properties[i].1));
        assert properties[..i + 1][..i] == properties[..i];
        i := i + 1;
      }
      assert properties[..i] == properties;
    }

    /** `setValue(key, value)`. */
    method SetValue(key: string, value: Scalar)
      requires Valid()
      modifies this
      ensures Valid() && children == Put(old(children), key, ValueNode(value))
    {
      PutDistinct(children, key, ValueNode(value));
      children := Put(children, key, ValueNode(value));
    }

    /** `addRawMap(tree)`. */
    method AddRawMap(tree: seq<(string, Raw)>)
      requires Valid() && DistinctKeys(tree)
      modifies this
      ensures Valid() && children == MergeRaw(old(children), tree)
    {
      MergeRawGet(children, tree, "");
      children := MergeRaw(children, tree);
    }

    /** `addRawMaps(trees)`. */
    method AddRawMaps(trees: seq<seq<(string, Raw)>>)
      requires Valid() && forall i :: 0 <= i < |trees| ==> DistinctKeys(trees[i])
      modifies this
      ensures Valid() && children == MergeRaws(old(children), trees)
    {
      var i := 0;
      while i < |trees|
        invariant 0 <= i <= |trees| && Valid()
        invariant children == MergeRaws(old(children), trees[..i])
      {
        AddRawMap(trees[i]);
        assert trees[..i + 1][..i] == trees[..i];
        i := i + 1;
      }
      assert trees[..i] == trees;
    }

    /** `overriddenWith(tree)`: this very tree when there is no override, otherwise a new tree. */
    method OverriddenWith(tree: PropertyTree?) returns (r: Outcome<PropertyTree>)
      requires Valid() && (tree != null ==> tree.Valid())
      ensures tree == null ==> r == Ok(this)
      ensures tree != null ==> (r.Ok? <==> OverriddenChildren(children, Some(tree.children)).Ok?)
      ensures tree != null && r.Ok? ==>
                fresh(r.value) && r.value.Valid() && r.value.children == OverriddenChildren(children, Some(tree.children)).value
    {
      if tree == null {
        r := Ok(this);
      } else {
        var merged := OverriddenChildren(children, Some(tree.children));
        if merged.Thrown? {
          r := Thrown(merged.error);
        } else {
          OverrideByKey(children, tree.children, "");
          var copy := new PropertyTree();
          copy.children := merged.value;
          r := Ok(copy);
        }
      }
    }
  }

  lemma PathABC()
    ensures PropertyPath("a.b.c") == ["a", "b", "c"]
  {
    assert PlainPart("a") && PlainPart("b") && PlainPart("c");
    assert Strings.Join(["a", "b", "c"], ".") == "a.b.c";
    PropertyPathOfDottedName(["a", "b", "c"]);
  }

  lemma PathAB()
    ensures PropertyPath("a.b") == ["a", "b"]
  {
    assert PlainPart("a") && PlainPart("b");
    assert Strings.Join(["a", "b"], ".") == "a.b";
    PropertyPathOfDottedName(["a", "b"]);
  }

  lemma PrefixValueExample(hello: Scalar, bye: Scalar)
    ensures WithProperty(WithProperty([], ["a", "b", "c"], hello), ["a", "b"], bye)
            == WithProperty([], ["a", "b"], bye)
  {
    var c := [("c", ValueNode(hello))];
    assert WithProperty([], ["c"], hello) == c;
    assert ["a", "b", "c"][1..] == ["b", "c"] && ["b", "c"][1..] == ["c"];
    assert WithProperty([], ["b", "c"], hello) == [("b", TreeNode(c))];
    var t := WithProperty([], ["a", "b", "c"], hello);
    assert t == [("a", TreeNode([("b", TreeNode(c))]))];
    assert ["a", "b"][1..] == ["b"];
    assert ChildTree(t, "a") == Some([("b", TreeNode(c))]);
    assert WithProperty([("b", TreeNode(c))], ["b"], bye) == [("b", ValueNode(bye))];
    assert WithProperty([], ["b"], bye) == [("b", ValueNode(bye))];
  }

  lemma DeeperPathExample(hello: Scalar, bye: Scalar)
    ensures WithProperty(WithProperty([], ["a", "b"], bye), ["a", "b", "c"], hello)
            == WithProperty([], ["a", "b", "c"], hello)
  {
    var b := [("b", ValueNode(bye))];
    assert ["a", "b"][1..] == ["b"];
    assert WithProperty([], ["b"], bye) == b;
    var t := WithProperty([], ["a", "b"], bye);
    assert t == [("a", TreeNode(b))];
    assert ["a", "b", "c"][1..] == ["b", "c"] && ["b", "c"][1..] == ["c"];
    assert ChildTree(t, "a") == Some(b);
    assert ChildTree(b, "b") == None;
    assert WithProperty(b, ["b", "c"], hello) == WithProperty([], ["b", "c"], hello);
  }

  lemma NestedABC(v: Scalar)
    ensures ToRawMap(WithProperty([], ["a", "b", "c"], v)) == Ok([("a", RawMap([("b", RawMap([("c", RawValue(v))]))]))])
  {
    NoIndexParts();
    PropertyInEmptyTreeNests(["a", "b", "c"], v);
    assert ["a", "b", "c"][1..] == ["b", "c"] && ["b", "c"][1..] == ["c"];
  }

  lemma NestedAB(v: Scalar)
    ensures ToRawMap(WithProperty([], ["a", "b"], v)) == Ok([("a", RawMap([("b", RawValue(v))]))])
  {
    NoIndexParts();
    PropertyInEmptyTreeNests(["a", "b"], v);
    assert ["a", "b"][1..] == ["b"];
  }

  lemma DeeperPathRaw(hello: Scalar, bye: Scalar)
    ensures ToRawMap(WithProperty(WithProperty([], ["a", "b"], bye), ["a", "b", "c"], hello))
            == Ok([("a", RawMap([("b", RawMap([("c", RawValue(hello))]))]))])
  {
    DeeperPathExample(hello, bye);
    NestedABC(hello);
  }

  lemma PrefixValueRaw(hello: Scalar, bye: Scalar)
    ensures ToRawMap(WithProperty(WithProperty([], ["a", "b", "c"], hello), ["a", "b"], bye))
            == Ok([("a", RawMap([("b", RawValue(bye))]))])
  {
    PrefixValueExample(hello, bye);
    NestedAB(bye);
  }

  lemma NoIndexParts()
    ensures Numbers.ParseUnsignedInt("a").None? && Numbers.ParseUnsignedInt("b").None? && Numbers.ParseUnsignedInt("c").None?
  {
    assert !Numbers.IsDigit('a') && !Numbers.IsDigit('b') && !Numbers.IsDigit('c');
  }

  /** A value set at a prefix of a deeper property replaces the subtree. */
  method ComposedPathOverriddenWithValue() returns (raw: Outcome<seq<(string, Raw)>>)
    ensures raw == Ok([("a", RawMap([("b", RawValue(Text("bye")))]))])
  {
    var tree := new PropertyTree();
    PathABC();
    PathAB();
    tree.AddProperty("a.b.c", Text("hello"));
    tree.AddProperty("a.b", Text("bye"));
    PrefixValueRaw(Text("hello"), Text("bye"));
    raw := ToRawMap(tree.children);
  }

  /** A deeper property replaces a value on its way with a subtree. */
  method ValueOverriddenWithComposedPath() returns (raw: Outcome<seq<(string, Raw)>>)
    ensures raw == Ok([("a", RawMap([("b", RawMap([("c", RawValue(Text("hello")))]))]))])
  {
    var tree := new PropertyTree();
    PathABC();
    PathAB();
    tree.AddProperty("a.b", Text("bye"));
    tree.AddProperty("a.b.c", Text("hello"));
    DeeperPathRaw(Text("hello"), Text("bye"));
    raw := ToRawMap(tree.children);
  }

  lemma ImplicitListMerge(one: Scalar, zero: Scalar)
    ensures MergeRaw([], [("w", RawMap([("1", RawValue(one)), ("0", RawValue(zero))]))])
            == [("w", TreeNode([("1", ValueNode(one)), ("0", ValueNode(zero))]))]
  {
    var m := [("1", RawValue(one)), ("0", RawValue(zero))];
    var w := [("1", ValueNode(one)), ("0", ValueNode(zero))];
    var t1 := [("1", ValueNode(one))];
    assert MergeEntry([], "1", RawValue(one)) == t1;
    assert MergeEntry(t1, "0", RawValue(zero)) == w;
    assert MergeRawFrom(w, m, 2) == w;
    assert MergeRawFrom(t1, m, 1) == w;
    assert MergeRawFrom([], m, 0) == w;
    var t := [("w", TreeNode(w))];
    assert ChildTree([], "w") == None;
    assert MergeEntry([], "w", RawMap(m)) == t;
    assert MergeRawFrom(t, [("w", RawMap(m))], 1) == t;
  }

  lemma SmallIndexes()
    ensures Numbers.ParseUnsignedInt("1") == Some(1) && Numbers.ParseUnsignedInt("0") == Some(0)
    ensures Numbers.ParseIntOfUnsigned("1").Some? && Numbers.ParseIntOfUnsigned("0").Some?
  {
    assert "1"[0] == '1' && "0"[0] == '0';
    assert Numbers.AllDigits("1") && Numbers.AllDigits("0");
    assert Numbers.DigitsValue("1") == 1 by {
      assert "1"[..0] == [];
    }
    assert Numbers.DigitsValue("0") == 0 by {
      assert "0"[..0] == [];
    }
  }

  lemma SortTwoIndexes(raws: seq<(string, Raw)>)
    requires |raws| == 2 && KeyIndex(raws[0]) == 1 && KeyIndex(raws[1]) == 0
    ensures SortBy(raws, KeyIndex) == [raws[1], raws[0]]
  {
    assert raws[1..][1..] == [];
    assert SortBy(raws[1..], KeyIndex) == [raws[1]];
  }

  lemma IndexChildrenRaw(one: Scalar, zero: Scalar)
    ensures ToRawMap([("1", ValueNode(one)), ("0", ValueNode(zero))])
            == Ok([("1", RawValue(one)), ("0", RawValue(zero))])
  {
    var w := [("1", ValueNode(one)), ("0", ValueNode(zero))];
    var raws := [("1", RawValue(one)), ("0", RawValue(zero))];
    ChildrenToRawShape(w);
    assert ToRaw(w[0].1) == Ok(RawValue(one)) && ToRaw(w[1].1) == Ok(RawValue(zero));
    var r := ToRawMap(w).value;
    assert |r| == 2 && r[0] == raws[0] && r[1] == raws[1];
    assert r == raws;
  }

  lemma IndexTreeIsSortedList(one: Scalar, zero: Scalar)
    ensures ToRaw(TreeNode([("1", ValueNode(one)), ("0", ValueNode(zero))]))
            == Ok(RawList(Values(SortBy([("1", RawValue(one)), ("0", RawValue(zero))], KeyIndex))))
  {
    var w := [("1", ValueNode(one)), ("0", ValueNode(zero))];
    IndexChildrenRaw(one, zero);
    assert AllUnsignedKeys(w) && AllIntKeys(w) by {
      SmallIndexes();
    }
    TreeOfIndexesIsList(w);
  }

  lemma SortedIndexValues(one: Scalar, zero: Scalar)
    ensures Values(SortBy([("1", RawValue(one)), ("0", RawValue(zero))], KeyIndex)) == [RawValue(zero), RawValue(one)]
  {
    var raws := [("1", RawValue(one)), ("0", RawValue(zero))];
    assert KeyIndex(raws[0]) == 1 && KeyIndex(raws[1]) == 0 by {
      SmallIndexes();
    }
    SortTwoIndexes(raws);
    assert Values([raws[1], raws[0]]) == [RawValue(zero), RawValue(one)];
  }

  lemma IndexKeysRenderAsList(one: Scalar, zero: Scalar)
    ensures ToRaw(TreeNode([("1", ValueNode(one)), ("0", ValueNode(zero))]))
            == Ok(RawList([RawValue(zero), RawValue(one)]))
  {
    IndexTreeIsSortedList(one, zero);
    SortedIndexValues(one, zero);
  }

  lemma ImplicitListExample(one: Scalar, zero: Scalar)
    ensures var t := MergeRaw([], [("w", RawMap([("1", RawValue(one)), ("0", RawValue(zero))]))]);
            ToRaw(TreeNode(t)) == Ok(RawMap([("w", RawList([RawValue(zero), RawValue(one)]))]))
  {
    ImplicitListMerge(one, zero);
    IndexKeysRenderAsList(one, zero);
    var w := [("1", ValueNode(one)), ("0", ValueNode(zero))];
    var t := [("w", TreeNode(w))];
    assert Numbers.ParseUnsignedInt("w") == None by {
      assert "w"[0] == 'w' && !Numbers.IsDigit("w"[0]);
    }
    assert Numbers.ParseUnsignedInt(t[0].0).None?;
    SingleChildToRaw("w", TreeNode(w));
  }

  /** A map whose keys are indexes reads back as a list in index order. */
  method MapWithImplicitList() returns (raw: Outcome<Raw>)
    ensures raw == Ok(RawMap([("w", RawList([RawValue(Text("zero")), RawValue(Text("one"))]))]))
  {
    var tree := new PropertyTree();
    tree.AddRawMap([("w", RawMap([("1", RawValue(Text("one"))), ("0", RawValue(Text("zero")))]))]);
    ImplicitListExample(Text("one"), Text("zero"));
    raw := ToRaw(TreeNode(tree.children));
  }
}
