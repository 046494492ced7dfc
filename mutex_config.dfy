/** Per-type mutex configuration, resolved through the "::"-separated hierarchy of lock
    types (com/github/andresviedma/poket/mutex/MutexConfig.kt). */
module MutexConfiguration {
  import opened Base
  import Strings

  /** What to do when the lock system fails. */
  datatype MutexOnErrorAction =
    | Fail      // throw the error
    | Get       // continue as if the lock was obtained
    | Fallback  // get the lock from the fallback lock system, if there is one

  datatype Field =
    | LockSystem | TimeoutInMillis | TtlInMillis | OnLockSystemError | FallbackLockSystem
    | FailOnLockReleaseError

  datatype FieldValue = Text(s: string) | Number(n: int) | Flag(b: bool) | Action(a: MutexOnErrorAction)

  datatype MutexTypeConfig = MutexTypeConfig(
    lockSystem: Option<string>,
    timeoutInMillis: Option<int>,
    ttlInMillis: Option<int>,
    onLockSystemError: Option<MutexOnErrorAction>,
    fallbackLockSystem: Option<string>,
    failOnLockReleaseError: Option<bool>)
  {
    function Lookup(f: Field): Option<FieldValue> {
      match f
      case LockSystem => if lockSystem.Some? then Some(Text(lockSystem.value)) else None
      case TimeoutInMillis => if timeoutInMillis.Some? then Some(Number(timeoutInMillis.value)) else None
      case TtlInMillis => if ttlInMillis.Some? then Some(Number(ttlInMillis.value)) else None
      case OnLockSystemError => if onLockSystemError.Some? then Some(Action(onLockSystemError.value)) else None
      case FallbackLockSystem => if fallbackLockSystem.Some? then Some(Text(fallbackLockSystem.value)) else None
      case FailOnLockReleaseError =>
        if failOnLockReleaseError.Some? then Some(Flag(failOnLockReleaseError.value)) else None
    }

    /** `overriddenWith`: every field the override defines wins, the others are kept. */
    function OverriddenWith(typeOverride: Option<MutexTypeConfig>): (r: MutexTypeConfig)
      ensures forall f :: r.Lookup(f) == LayerGet(typeOverride, f).OrElse(Lookup(f))
      ensures typeOverride.None? ==> r == this
    {
      if typeOverride.None? then this
      else
        var o := typeOverride.value;
        MutexTypeConfig(
          o.lockSystem.OrElse(lockSystem),
          o.timeoutInMillis.OrElse(timeoutInMillis),
          o.ttlInMillis.OrElse(ttlInMillis),
          o.onLockSystemError.OrElse(onLockSystemError),
          o.fallbackLockSystem.OrElse(fallbackLockSystem),
          o.failOnLockReleaseError.OrElse(failOnLockReleaseError))
    }
  }

  function LayerGet(layer: Option<MutexTypeConfig>, f: Field): Option<FieldValue> {
    if layer.Some? then layer.value.Lookup(f) else None
  }

  /** Two configurations with the same fields are equal. */
  lemma FieldsDetermineConfig(a: MutexTypeConfig, b: MutexTypeConfig)
    requires forall f :: a.Lookup(f) == b.Lookup(f)
    ensures a == b
  {
    assert a.Lookup(LockSystem) == b.Lookup(LockSystem);
    assert a.Lookup(TimeoutInMillis) == b.Lookup(TimeoutInMillis);
    assert a.Lookup(TtlInMillis) == b.Lookup(TtlInMillis);
    assert a.Lookup(OnLockSystemError) == b.Lookup(OnLockSystemError);
    assert a.Lookup(FallbackLockSystem) == b.Lookup(FallbackLockSystem);
    assert a.Lookup(FailOnLockReleaseError) == b.Lookup(FailOnLockReleaseError);
  }

  const EmptyTypeConfig := MutexTypeConfig(None, None, None, None, None, None)

  /** `MutexTypeConfig.DEFAULTS`. */
  const Defaults := MutexTypeConfig(Some("syncdb"), Some(10000), Some(10000), Some(Fail), None, Some(false))

  const Separator := "::"

  /** `typeSubparts`: for "a::b::c", the list "a", "a::b", "a::b::c". */
  function TypeSubparts(lockType: string): (r: seq<string>)
    ensures |r| == |Strings.Split(lockType, Separator)| >= 1
    ensures forall i :: 0 <= i < |r| ==> r[i] == Strings.Join(Strings.Split(lockType, Separator)[..i + 1], Separator)
  {
    var pieces := Strings.Split(lockType, Separator);
    seq(|pieces|, i requires 0 <= i < |pieces| => Strings.Join(pieces[..i + 1], Separator))
  }

  /** Each subpart is a prefix of the type, and the last one is the type itself. */
  lemma TypeSubpartsArePrefixes(lockType: string)
    ensures forall i :: 0 <= i < |TypeSubparts(lockType)| ==> Strings.IsPrefix(TypeSubparts(lockType)[i], lockType)
    ensures TypeSubparts(lockType)[|TypeSubparts(lockType)| - 1] == lockType
  {
    var pieces := Strings.Split(lockType, Separator);
    forall i | 0 <= i < |pieces| ensures Strings.IsPrefix(TypeSubparts(lockType)[i], lockType) {
      Strings.SplitPrefix(lockType, Separator, i + 1);
    }
    assert pieces[..|pieces|] == pieces;
    Strings.JoinSplit(lockType, Separator);
  }

  /** The value of a field in the latest of `parts` whose type entry defines it. */
  function LatestDefined(types: map<string, MutexTypeConfig>, parts: seq<string>, f: Field): Option<FieldValue> {
    if parts == [] then None
    else LatestDefined(types, parts[1..], f).OrElse(LayerGet(TypeLayer(types, parts[0]), f))
  }

  function TypeLayer(types: map<string, MutexTypeConfig>, lockType: string): Option<MutexTypeConfig> {
    if lockType in types then Some(types[lockType]) else None
  }

  /** The fold of `getTypeConfig`: overriding `config` with each part's entry in turn. */
  function OverrideWithParts(types: map<string, MutexTypeConfig>, config: MutexTypeConfig, parts: seq<string>): MutexTypeConfig
    decreases |parts|
  {
    if parts == [] then config
    else OverrideWithParts(types, config.OverriddenWith(TypeLayer(types, parts[0])), parts[1..])
  }

  /** After the fold, a field comes from the latest part that defines it, else from the start. */
  lemma {:induction false} OverrideWithPartsLookup(types: map<string, MutexTypeConfig>, config: MutexTypeConfig, parts: seq<string>, f: Field)
    ensures OverrideWithParts(types, config, parts).Lookup(f) == LatestDefined(types, parts, f).OrElse(config.Lookup(f))
    decreases |parts|
  {
    if parts != [] {
      OverrideWithPartsLookup(types, config.OverriddenWith(TypeLayer(types, parts[0])), parts[1..], f);
    }
  }

  datatype MutexConfig = MutexConfig(types: map<string, MutexTypeConfig>, default: MutexTypeConfig) {

    /** `getTypeConfig(type, baseTypeConfig)`: a field comes from the most specific
        "::"-prefix of the type that defines it, else from the base config, else the
        global default, else DEFAULTS; the fields of DEFAULTS are always defined. */
    function GetTypeConfig(lockType: string, baseTypeConfig: Option<MutexTypeConfig>): (r: MutexTypeConfig)
      ensures forall f ::
                r.Lookup(f) == LatestDefined(types, TypeSubparts(lockType), f)
                                 .OrElse(LayerGet(baseTypeConfig, f)).OrElse(default.Lookup(f)).OrElse(Defaults.Lookup(f))
      ensures r.lockSystem.Some? && r.timeoutInMillis.Some? && r.ttlInMillis.Some?
      ensures r.onLockSystemError.Some? && r.failOnLockReleaseError.Some?
    {
      var start := Defaults.OverriddenWith(Some(default)).OverriddenWith(baseTypeConfig);
      var r := OverrideWithParts(types, start, TypeSubparts(lockType));
      forall f ensures r.Lookup(f) == LatestDefined(types, TypeSubparts(lockType), f).OrElse(start.Lookup(f)) {
        OverrideWithPartsLookup(types, start, TypeSubparts(lockType), f);
      }
      assert r.Lookup(LockSystem).Some? && r.Lookup(TimeoutInMillis).Some? && r.Lookup(TtlInMillis).Some?;
      assert r.Lookup(OnLockSystemError).Some? && r.Lookup(FailOnLockReleaseError).Some?;
      r
    }
  }

  lemma SubpartsOfJoin(parts: seq<string>)
    requires |parts| >= 1 && forall i :: 0 <= i < |parts| ==> ':' !in parts[i]
    ensures |TypeSubparts(Strings.Join(parts, Separator))| == |parts|
    ensures forall i :: 0 <= i < |parts| ==>
              TypeSubparts(Strings.Join(parts, Separator))[i] == Strings.Join(parts[..i + 1], Separator)
  {
    Strings.SplitJoin(parts, Separator);
  }

  /** The type made of the first `n` segments of `parts`. */
  function SubType(parts: seq<string>, n: nat): string
    requires 1 <= n <= |parts|
  {
    Strings.Join(parts[..n], Separator)
  }

  /** Each deeper subtype is longer, so subtypes of different depths are different keys. */
  lemma SubTypeLength(parts: seq<string>, n: nat)
    requires 1 <= n < |parts|
    ensures |SubType(parts, n + 1)| == |SubType(parts, n)| + |Separator| + |parts[n]|
  {
    Strings.JoinAppend(parts[..n], parts[n], Separator);
    assert parts[..n] + [parts[n]] == parts[..n + 1];
  }

  /** The mixing of six levels of configuration, for any six segment names (the source's
      test uses "one" to "six"): every field comes from the most specific level that sets
      it, the global default fills the rest. */
  lemma MixingConfigParts(parts: seq<string>)
    requires |parts| == 6 && forall i :: 0 <= i < 6 ==> ':' !in parts[i]
    ensures
      var config := MutexConfig(
        map[
          SubType(parts, 1) := MutexTypeConfig(Some("mylock1"), Some(10), None, None, None, None),
          SubType(parts, 2) := MutexTypeConfig(None, Some(20), Some(21), None, None, None),
          SubType(parts, 3) := MutexTypeConfig(None, None, Some(31), Some(Get), None, None),
          SubType(parts, 5) := MutexTypeConfig(None, None, None, Some(Fallback), None, Some(false)),
          SubType(parts, 6) := MutexTypeConfig(None, None, None, None, None, Some(true))],
        MutexTypeConfig(Some("mylock"), None, None, None, Some("fallback"), None));
      config.GetTypeConfig(SubType(parts, 6), None) ==
        MutexTypeConfig(Some("mylock1"), Some(20), Some(31), Some(Fallback), Some("fallback"), Some(true))
  {
    assert parts[..6] == parts;
    SubpartsOfJoin(parts);
    SubTypeLength(parts, 1); SubTypeLength(parts, 2); SubTypeLength(parts, 3);
    SubTypeLength(parts, 4); SubTypeLength(parts, 5);
    var k1, k2, k3, k4, k5, k6 := SubType(parts, 1), SubType(parts, 2), SubType(parts, 3),
                                  SubType(parts, 4), SubType(parts, 5), SubType(parts, 6);
    var subparts := TypeSubparts(k6);
    assert subparts == [k1, k2, k3, k4, k5, k6];
    var types := map[
      k1 := MutexTypeConfig(Some("mylock1"), Some(10), None, None, None, None),
      k2 := MutexTypeConfig(None, Some(20), Some(21), None, None, None),
      k3 := MutexTypeConfig(None, None, Some(31), Some(Get), None, None),
      k5 := MutexTypeConfig(None, None, None, Some(Fallback), None, Some(false)),
      k6 := MutexTypeConfig(None, None, None, None, None, Some(true))];
    var c0 := Defaults.OverriddenWith(Some(MutexTypeConfig(Some("mylock"), None, None, None, Some("fallback"), None)))
                .OverriddenWith(None);
    var c1 := c0.OverriddenWith(TypeLayer(types, k1));
    assert c1 == MutexTypeConfig(Some("mylock1"), Some(10), Some(10000), Some(Fail), Some("fallback"), Some(false));
    var c2 := c1.OverriddenWith(TypeLayer(types, k2));
    assert c2 == MutexTypeConfig(Some("mylock1"), Some(20), Some(21), Some(Fail), Some("fallback"), Some(false));
    var c3 := c2.OverriddenWith(TypeLayer(types, k3));
    assert c3 == MutexTypeConfig(Some("mylock1"), Some(20), Some(31), Some(Get), Some("fallback"), Some(false));
    var c4 := c3.OverriddenWith(TypeLayer(types, k4));
    assert c4 == c3;
    var c5 := c4.OverriddenWith(TypeLayer(types, k5));
    var c6 := c5.OverriddenWith(TypeLayer(types, k6));
    assert c6 == MutexTypeConfig(Some("mylock1"), Some(20), Some(31), Some(Fallback), Some("fallback"), Some(true));
    assert OverrideWithParts(types, c0, subparts) == c6 by {
      var s1, s2, s3, s4, s5 := subparts[1..], subparts[2..], subparts[3..], subparts[4..], subparts[5..];
      assert s1[1..] == s2 && s2[1..] == s3 && s3[1..] == s4 && s4[1..] == s5 && s5[1..] == [];
      assert OverrideWithParts(types, c0, subparts) == OverrideWithParts(types, c1, s1);
      assert OverrideWithParts(types, c1, s1) == OverrideWithParts(types, c2, s2);
      assert OverrideWithParts(types, c2, s2) == OverrideWithParts(types, c3, s3);
      assert OverrideWithParts(types, c3, s3) == OverrideWithParts(types, c4, s4);
      assert OverrideWithParts(types, c4, s4) == OverrideWithParts(types, c5, s5);
      assert OverrideWithParts(types, c5, s5) == OverrideWithParts(types, c6, []);
    }
  }

  /** A base type config given by the caller beats the global default but loses to any
      configured part of the type (for any three segment names). */
  lemma BaseTypeConfigPrecedence(parts: seq<string>)
    requires |parts| == 3 && forall i :: 0 <= i < 3 ==> ':' !in parts[i]
    ensures
      var config := MutexConfig(map[SubType(parts, 1) := MutexTypeConfig(Some("kk3"), None, None, None, None, None)],
                                MutexTypeConfig(Some("kk1"), Some(1), Some(1), None, None, None));
      config.GetTypeConfig(SubType(parts, 3), Some(MutexTypeConfig(Some("kk2"), Some(2), None, None, None, None))) ==
        Defaults.(lockSystem := Some("kk3"), timeoutInMillis := Some(2), ttlInMillis := Some(1))
  {
    assert parts[..3] == parts;
    SubpartsOfJoin(parts);
    SubTypeLength(parts, 1); SubTypeLength(parts, 2);
    var k1, k2, k3 := SubType(parts, 1), SubType(parts, 2), SubType(parts, 3);
    var subparts := TypeSubparts(k3);
    assert subparts == [k1, k2, k3];
    var types := map[k1 := MutexTypeConfig(Some("kk3"), None, None, None, None, None)];
    var c0 := Defaults.OverriddenWith(Some(MutexTypeConfig(Some("kk1"), Some(1), Some(1), None, None, None)))
                .OverriddenWith(Some(MutexTypeConfig(Some("kk2"), Some(2), None, None, None, None)));
    var c1 := c0.OverriddenWith(TypeLayer(types, k1));
    assert c1 == Defaults.(lockSystem := Some("kk3"), timeoutInMillis := Some(2), ttlInMillis := Some(1));
    assert OverrideWithParts(types, c0, subparts) == c1 by {
      var s1, s2 := subparts[1..], subparts[2..];
      assert s1[1..] == s2 && s2[1..] == [];
      var c2 := c1.OverriddenWith(TypeLayer(types, k2));
      assert c2 == c1;
      assert c2.OverriddenWith(TypeLayer(types, k3)) == c1;
      assert OverrideWithParts(types, c0, subparts) == OverrideWithParts(types, c1, s1);
      assert OverrideWithParts(types, c1, s1) == OverrideWithParts(types, c2, s2);
      assert OverrideWithParts(types, c2, s2) == OverrideWithParts(types, c1, []);
    }
  }

  /** With nothing configured, every type gets DEFAULTS. */
  lemma UndefinedWithNoDefault(lockType: string)
    ensures MutexConfig(map[], EmptyTypeConfig).GetTypeConfig(lockType, None) == Defaults
  {
    var r := MutexConfig(map[], EmptyTypeConfig).GetTypeConfig(lockType, None);
    forall f ensures LatestDefined(map[], TypeSubparts(lockType), f) == None {
      NothingDefined(TypeSubparts(lockType), f);
    }
    FieldsDetermineConfig(r, Defaults);
  }

  /** With only a fully defined global default configured, every type gets that default. */
  lemma UndefinedWithDefault(lockType: string, default: MutexTypeConfig)
    requires forall f :: default.Lookup(f).Some?
    ensures MutexConfig(map[], default).GetTypeConfig(lockType, None) == default
  {
    var r := MutexConfig(map[], default).GetTypeConfig(lockType, None);
    forall f ensures LatestDefined(map[], TypeSubparts(lockType), f) == None {
      NothingDefined(TypeSubparts(lockType), f);
    }
    FieldsDetermineConfig(r, default);
  }

  lemma {:induction false} NothingDefined(parts: seq<string>, f: Field)
    ensures LatestDefined(map[], parts, f) == None
  {
    if parts != [] { NothingDefined(parts[1..], f); }
  }
}
