/** The typed cache facade: configuration per cached type, namespaces, and the
    get / put / invalidate / get-or-generate operations over a cache system
    (io/github/andresviedma/poket/cache/ObjectCache.kt). */
module ObjectCaching {
  import opened Base
  import opened CacheConfiguration
  import MapCaching
  import Strings

  /** What the cache system holds for a key: a cached value in the type's namespace, or
      the epoch milliseconds when the value was generated, in the generation-time namespace. */
  datatype CachedValue<V> = Value(v: V) | GenerationTime(millis: int)

  /** The serialization version that names the generation-time namespace. */
  const GenerationTimeVersion := "gents"

  function ValueOf<V>(stored: Option<CachedValue<V>>): (r: Option<V>)
    ensures r.Some? <==> stored.Some? && stored.value.Value?
  {
    if stored.Some? && stored.value.Value? then Some(stored.value.v) else None
  }

  function TimeOf<V>(stored: Option<CachedValue<V>>): (r: Option<int>)
    ensures r.Some? <==> stored.Some? && stored.value.GenerationTime?
  {
    if stored.Some? && stored.value.GenerationTime? then Some(stored.value.millis) else None
  }

  /** `ifEnabled`: the block runs only when the resolved configuration is not disabled. */
  predicate Enabled(config: CacheTypeConfig) {
    config.disabled != Some(true)
  }

  /** The keys of `keys` that `cached` has no value for, in input order and with repetitions
      kept. */
  function Missing<K(!new), V>(keys: seq<K>, cached: map<K, V>): (r: seq<K>)
    ensures |r| <= |keys|
  {
    if |keys| == 0 then []
    else (if keys[0] in cached then [] else [keys[0]]) + Missing(keys[1..], cached)
  }

  /** The missing keys are exactly the requested keys without a cached value. */
  lemma {:induction false} MissingMembers<K(!new), V>(keys: seq<K>, cached: map<K, V>, k: K)
    ensures k in Missing(keys, cached) <==> k in keys && k !in cached
    decreases |keys|
  {
    if |keys| > 0 {
      MissingMembers(keys[1..], cached, k);
      assert keys == [keys[0]] + keys[1..];
    }
  }

  /** `Missing` keeps input order: the missing keys of a concatenation are those of each
      half, concatenated. */
  lemma {:induction false} MissingConcat<K(!new), V>(a: seq<K>, b: seq<K>, cached: map<K, V>)
    ensures Missing(a + b, cached) == Missing(a, cached) + Missing(b, cached)
    decreases |a|
  {
    if |a| > 0 {
      MissingConcat(a[1..], b, cached);
      assert (a + b)[0] == a[0];
      assert (a + b)[1..] == a[1..] + b;
      var head := if a[0] in cached then [] else [a[0]];
      calc {
        Missing(a + b, cached);
        head + Missing(a[1..] + b, cached);
        head + (Missing(a[1..], cached) + Missing(b, cached));
        (head + Missing(a[1..], cached)) + Missing(b, cached);
      }
    } else {
      assert a + b == b;
    }
  }

  /** When every key is cached nothing is missing. */
  lemma AllCachedNothingMissing<K(!new), V>(keys: seq<K>, cached: map<K, V>)
    requires forall k :: k in keys ==> k in cached
    ensures Missing(keys, cached) == []
  {
    if |Missing(keys, cached)| > 0 {
      MissingMembers(keys, cached, Missing(keys, cached)[0]);
    }
  }

  /** `cached.associate { ... }`: the cached value of each requested key that has one. */
  function CachedPart<K(!new), V>(keys: seq<K>, cached: map<K, V>): (r: map<K, V>)
    ensures forall k :: k in r <==> k in keys && k in cached
    ensures forall k :: k in r ==> r[k] == cached[k]
  {
    map k | k in keys && k in cached :: cached[k]
  }

  /** The parts of a namespace before the serialization version. */
  function PartsBefore(c: CacheTypeConfig, cacheType: string): seq<string> {
    (if c.distributedComponentNamespace.Some? then [c.distributedComponentNamespace.value] else []) + [cacheType]
  }

  /** The parts of a namespace after the serialization version. */
  function PartsAfter(c: CacheTypeConfig, rolling: int): seq<string> {
    (if c.version.Some? then [c.version.value] else [])
    + (if c.loadTestRollingFactor.Some? then ["r" + Numbers.IntToString(rolling)] else [])
  }

  /** A namespace is a prefix and a suffix fixed by the configuration, the type and the
      rolling number, around the serialization version. */
  lemma NamespaceAroundVersion(c: CacheTypeConfig, cacheType: string, v: string, rolling: int)
    requires c.loadTestRollingFactor.Some? ==> 1 <= rolling <= c.loadTestRollingFactor.value
    ensures var post := PartsAfter(c, rolling);
            c.Namespace(cacheType, v, rolling).value ==
              Strings.Join(PartsBefore(c, cacheType), "-") + "-" + v + (if |post| == 0 then "" else "-" + Strings.Join(post, "-"))
  {
    var pre, post := PartsBefore(c, cacheType), PartsAfter(c, rolling);
    assert c.NamespaceParts(cacheType, v, rolling) == (pre + [v]) + post;
    Strings.JoinAppend(pre, v, "-");
    if |post| > 0 {
      Strings.JoinConcat(pre + [v], post, "-");
    } else {
      assert (pre + [v]) + post == pre + [v];
    }
  }

  /** Two namespaces built from the same configuration, type and rolling number are
      different strings when their serialization versions differ. */
  lemma NamespacesDiffer(c: CacheTypeConfig, cacheType: string, v1: string, v2: string, rolling: int)
    requires c.loadTestRollingFactor.Some? ==> 1 <= rolling <= c.loadTestRollingFactor.value
    requires v1 != v2
    ensures c.Namespace(cacheType, v1, rolling).value != c.Namespace(cacheType, v2, rolling).value
  {
    var post := PartsAfter(c, rolling);
    NamespaceAroundVersion(c, cacheType, v1, rolling);
    NamespaceAroundVersion(c, cacheType, v2, rolling);
    MiddleDiffers(Strings.Join(PartsBefore(c, cacheType), "-") + "-", v1, v2,
                  if |post| == 0 then "" else "-" + Strings.Join(post, "-"));
  }

  lemma MiddleDiffers(p: string, x: string, y: string, t: string)
    requires x != y
    ensures p + x + t != p + y + t
  {
    assert (p + x + t)[|p|..|p| + |x|] == x;
    assert (p + y + t)[|p|..|p| + |y|] == y;
  }

  /** Namespaces with one optional part set: none gives "test-1", a component namespace
      "myservice" gives "myservice-test-1" and a version "v10" gives "test-1-v10" (for any
      type, serialization version and part values). */
  lemma PlainNamespace(cacheType: string, serializationVersion: string, component: string, version: string)
    ensures EmptyTypeConfig.Namespace(cacheType, serializationVersion, 0) == Ok(cacheType + "-" + serializationVersion)
    ensures EmptyTypeConfig.(distributedComponentNamespace := Some(component)).Namespace(cacheType, serializationVersion, 0)
              == Ok(component + "-" + cacheType + "-" + serializationVersion)
    ensures EmptyTypeConfig.(version := Some(version)).Namespace(cacheType, serializationVersion, 0)
              == Ok(cacheType + "-" + serializationVersion + "-" + version)
  {
    JoinOfTwo(cacheType, serializationVersion);
    JoinOfTwo(serializationVersion, version);
    var withComponent := [component, cacheType, serializationVersion];
    assert withComponent[1..] == [cacheType, serializationVersion];
    assert Strings.Join(withComponent, "-") == component + "-" + (cacheType + "-" + serializationVersion);
    assert component + "-" + (cacheType + "-" + serializationVersion) == component + "-" + cacheType + "-" + serializationVersion;
    assert EmptyTypeConfig.(distributedComponentNamespace := Some(component)).NamespaceParts(cacheType, serializationVersion, 0)
             == withComponent;
    var withVersion := [cacheType, serializationVersion, version];
    assert withVersion[1..] == [serializationVersion, version];
    assert Strings.Join(withVersion, "-") == cacheType + "-" + (serializationVersion + "-" + version);
    assert cacheType + "-" + (serializationVersion + "-" + version) == cacheType + "-" + serializationVersion + "-" + version;
    assert EmptyTypeConfig.(version := Some(version)).NamespaceParts(cacheType, serializationVersion, 0) == withVersion;
    assert EmptyTypeConfig.NamespaceParts(cacheType, serializationVersion, 0) == [cacheType, serializationVersion];
  }

  lemma JoinOfTwo(a: string, b: string)
    ensures Strings.Join([a, b], "-") == a + "-" + b
  {
    assert [a, b][1..] == [b];
  }

  /** `(1..loadTestRollingFactor).random()` throws on an empty range, that is when the
      factor is below 1, so that every namespace of the type throws when it is built. */
  predicate EmptyRollingRange(c: CacheTypeConfig) {
    c.loadTestRollingFactor.Some? && c.loadTestRollingFactor.value < 1
  }

  /** `roll` is a number the draw for one namespace can give: one of
      `1..loadTestRollingFactor` when that range is not empty (it is unused otherwise). */
  predicate Drawable(c: CacheTypeConfig, roll: int) {
    c.loadTestRollingFactor.Some? && c.loadTestRollingFactor.value >= 1 ==> 1 <= roll <= c.loadTestRollingFactor.value
  }

  /** A namespace under a load-test factor ends in "-r" and the drawn number. */
  lemma NamespaceEndsWithDraw(c: CacheTypeConfig, cacheType: string, v: string, roll: int)
    requires c.loadTestRollingFactor.Some? && 1 <= roll <= c.loadTestRollingFactor.value
    ensures c.Namespace(cacheType, v, roll).value ==
              Strings.Join((PartsBefore(c, cacheType) + [v]) + (if c.version.Some? then [c.version.value] else []), "-")
              + "-r" + Numbers.NatToString(roll)
  {
    var front := (PartsBefore(c, cacheType) + [v]) + (if c.version.Some? then [c.version.value] else []);
    var last := "r" + Numbers.NatToString(roll);
    assert c.NamespaceParts(cacheType, v, roll) == front + [last];
    Strings.JoinAppend(front, last, "-");
    assert Strings.Join(front, "-") + "-" + last == Strings.Join(front, "-") + "-r" + Numbers.NatToString(roll);
  }

  /** In a string that ends in "-r" and a part without "-", no "-" follows the one before
      the "r". */
  lemma DashAtOrBefore(b: string, d: string, i: int)
    requires '-' !in d && 0 <= i < |b| + 2 + |d|
    requires (b + "-r" + d)[i] == '-'
    ensures i <= |b|
  {
  }

  /** Two strings that end in "-r" followed by a part without "-" agree on that part. */
  lemma SuffixAfterLastDash(a: string, d1: string, b: string, d2: string)
    requires '-' !in d1 && '-' !in d2
    requires a + "-r" + d1 == b + "-r" + d2
    ensures d1 == d2
  {
    var x := a + "-r" + d1;
    assert x[|a|] == '-' && x[|b|] == '-';
    DashAtOrBefore(b, d2, |a|);
    DashAtOrBefore(a, d1, |b|);
    assert d1 == x[|a| + 2..] && d2 == x[|b| + 2..];
  }

  /** Under a load-test factor, different draws give different namespaces, whatever their
      serialization versions: the namespace ends with the drawn number, and the decimal
      rendering of a number gives the number back. */
  lemma DrawsSeparateNamespaces(c: CacheTypeConfig, cacheType: string, v1: string, v2: string, roll1: int, roll2: int)
    requires c.loadTestRollingFactor.Some?
    requires 1 <= roll1 <= c.loadTestRollingFactor.value && 1 <= roll2 <= c.loadTestRollingFactor.value
    requires roll1 != roll2
    ensures c.Namespace(cacheType, v1, roll1).value != c.Namespace(cacheType, v2, roll2).value
  {
    var d1, d2 := Numbers.NatToString(roll1), Numbers.NatToString(roll2);
    NamespaceEndsWithDraw(c, cacheType, v1, roll1);
    NamespaceEndsWithDraw(c, cacheType, v2, roll2);
    assert !Numbers.IsDigit('-');
    if c.Namespace(cacheType, v1, roll1).value == c.Namespace(cacheType, v2, roll2).value {
      SuffixAfterLastDash(Strings.Join((PartsBefore(c, cacheType) + [v1]) + (if c.version.Some? then [c.version.value] else []), "-"), d1,
                          Strings.Join((PartsBefore(c, cacheType) + [v2]) + (if c.version.Some? then [c.version.value] else []), "-"), d2);
      Numbers.DigitsValueOfNatToString(roll1);
      Numbers.DigitsValueOfNatToString(roll2);
    }
  }

  /** The namespaces of two serialization versions differ for any two draws. */
  lemma VersionsSeparateNamespaces(c: CacheTypeConfig, cacheType: string, v1: string, v2: string, roll1: int, roll2: int)
    requires !EmptyRollingRange(c) && Drawable(c, roll1) && Drawable(c, roll2)
    requires v1 != v2
    ensures c.Namespace(cacheType, v1, roll1).value != c.Namespace(cacheType, v2, roll2).value
  {
    if c.loadTestRollingFactor.Some? && roll1 != roll2 {
      DrawsSeparateNamespaces(c, cacheType, v1, v2, roll1, roll2);
    } else {
      assert c.NamespaceParts(cacheType, v2, roll2) == c.NamespaceParts(cacheType, v2, roll1);
      NamespacesDiffer(c, cacheType, v1, v2, roll1);
    }
  }

  class ObjectCache<K(==,!new), V> {
    /** The cache system the configured `cacheSystem` id resolves to. */
    const system: MapCaching.MapCacheSystem<K, CachedValue<V>>
    const cacheType: string
    const serializationVersion: string
    /** Defaults given by the creator of the cache, between the type's entry and the
        global default. */
    const defaultTypeConfig: Option<CacheTypeConfig>
    /** The `CacheConfig` the configuration provider currently serves. */
    var configuration: CacheConfig

    constructor(system: MapCaching.MapCacheSystem<K, CachedValue<V>>, cacheType: string, serializationVersion: string,
                defaultTypeConfig: Option<CacheTypeConfig>, configuration: CacheConfig)
      ensures this.system == system && this.cacheType == cacheType
      ensures this.serializationVersion == serializationVersion && this.defaultTypeConfig == defaultTypeConfig
      ensures this.configuration == configuration
    {
      this.system := system;
      this.cacheType := cacheType;
      this.serializationVersion := serializationVersion;
      this.defaultTypeConfig := defaultTypeConfig;
      this.configuration := configuration;
    }

    /** `getConfig()`. */
    function Config(): CacheTypeConfig
      reads this
    {
      configuration.GetTypeConfig(cacheType, defaultTypeConfig)
    }

    /** The type is enabled but its rolling range is empty: an operation throws when it
        builds its first namespace, before it reaches the cache system. */
    predicate NamespaceThrows()
      reads this
    {
      Enabled(Config()) && EmptyRollingRange(Config())
    }

    /** The type is enabled and its namespaces can be built: operations reach the cache
        system. */
    predicate Serving()
      reads this
    {
      Enabled(Config()) && !EmptyRollingRange(Config())
    }

    /** What building a namespace throws on an empty rolling range. */
    function RollingError(): Exception
      reads this
      requires EmptyRollingRange(Config())
    {
      Config().Namespace(cacheType, serializationVersion, 0).error
    }

    /** `namespace()` with the number `roll` drawn for it. */
    function ValueNamespace(roll: int): string
      reads this
      requires !EmptyRollingRange(Config()) && Drawable(Config(), roll)
    {
      Config().Namespace(cacheType, serializationVersion, roll).value
    }

    /** `generationTimeNamespace()` with the number `roll` drawn for it. */
    function GenerationTimeNamespace(roll: int): string
      reads this
      requires !EmptyRollingRange(Config()) && Drawable(Config(), roll)
    {
      Config().Namespace(cacheType, GenerationTimeVersion, roll).value
    }

    function Ttl(ttlOverride: Option<int>): int
      reads this
    {
      ttlOverride.GetOr(Config().ttlInSeconds.value)
    }

    /** The value the cache system holds for `key` in the type's namespace under the draw
        `roll`. */
    function Cached(key: K, roll: int): Option<V>
      reads this, system
      requires !EmptyRollingRange(Config()) && Drawable(Config(), roll)
    {
      ValueOf(system.GetObject(ValueNamespace(roll), key))
    }

    /** `get(key)`, with `roll` the number drawn for its namespace: nothing when the type is
        disabled; otherwise the namespace is built, which throws on an empty rolling range,
        and the value stored there is returned. */
    function Get(key: K, roll: int): (r: Outcome<Option<V>>)
      reads this, system
      requires Drawable(Config(), roll)
      ensures r.Thrown? <==> NamespaceThrows()
      ensures r.Thrown? ==> r.error == RollingError()
      ensures r.Ok? && r.value.Some? <==> Serving() && Cached(key, roll).Some?
      ensures r.Ok? && r.value.Some? ==> r.value == Cached(key, roll)
    {
      if !Enabled(Config()) then Ok(None)
      else if EmptyRollingRange(Config()) then Thrown(RollingError())
      else Ok(Cached(key, roll))
    }

    /** The store after `put`: the value in the type's namespace under `valueRoll` and, for
        a type that is updated asynchronously, `now` in the generation-time namespace under
        `timeRoll`. */
    function StoreAfterPut(store: map<string, map<K, MapCaching.MapCacheEntry<CachedValue<V>>>>, key: K, value: V,
                           ttl: int, forceInvalidation: bool, now: int, valueRoll: int, timeRoll: int)
      : map<string, map<K, MapCaching.MapCacheEntry<CachedValue<V>>>>
      reads this
      requires !EmptyRollingRange(Config()) && Drawable(Config(), valueRoll) && Drawable(Config(), timeRoll)
    {
      var s1 := MapCaching.PutEntries(store, ValueNamespace(valueRoll),
                                      map[key := MapCaching.MapCacheEntry(ttl, Some(Value(value)), forceInvalidation)]);
      if Config().IsUpdatableAsynchronously() then
        MapCaching.PutEntries(s1, GenerationTimeNamespace(timeRoll),
                              map[key := MapCaching.MapCacheEntry(ttl, Some(GenerationTime(now)), forceInvalidation)])
      else s1
    }

    /** The generation time `put` writes under `timeRoll` does not land on the value it
        wrote under `valueRoll`: the serialization version is not "gents", no generation
        time is written, or a load-test factor gave the two writes different draws. */
    predicate ValueSurvivesTime(valueRoll: int, timeRoll: int)
      reads this
    {
      serializationVersion != GenerationTimeVersion || !Config().IsUpdatableAsynchronously()
      || (Config().loadTestRollingFactor.Some? && valueRoll != timeRoll)
    }

    /** A put value reads back under the draw it was written with exactly when the
        generation time did not overwrite it; the generation time reads back under its own
        draw. */
    lemma ValueReadAfterPut(store: map<string, map<K, MapCaching.MapCacheEntry<CachedValue<V>>>>, key: K, value: V,
                            ttl: int, forceInvalidation: bool, now: int, valueRoll: int, timeRoll: int)
      requires !EmptyRollingRange(Config()) && Drawable(Config(), valueRoll) && Drawable(Config(), timeRoll)
      ensures (ValueOf(MapCaching.Lookup(StoreAfterPut(store, key, value, ttl, forceInvalidation, now, valueRoll, timeRoll),
                                         ValueNamespace(valueRoll), key)) == Some(value))
                <==> ValueSurvivesTime(valueRoll, timeRoll)
      ensures Config().IsUpdatableAsynchronously() ==>
                TimeOf(MapCaching.Lookup(StoreAfterPut(store, key, value, ttl, forceInvalidation, now, valueRoll, timeRoll),
                                         GenerationTimeNamespace(timeRoll), key)) == Some(now)
    {
      var entry := MapCaching.MapCacheEntry(ttl, Some(Value(value)), forceInvalidation);
      var s1 := MapCaching.PutEntries(store, ValueNamespace(valueRoll), map[key := entry]);
      MapCaching.LookupPutEntries(store, ValueNamespace(valueRoll), map[key := entry], ValueNamespace(valueRoll), key);
      if Config().IsUpdatableAsynchronously() {
        var timeEntry := MapCaching.MapCacheEntry(ttl, Some(GenerationTime(now)), forceInvalidation);
        MapCaching.LookupPutEntries(s1, GenerationTimeNamespace(timeRoll), map[key := timeEntry], ValueNamespace(valueRoll), key);
        MapCaching.LookupPutEntries(s1, GenerationTimeNamespace(timeRoll), map[key := timeEntry], GenerationTimeNamespace(timeRoll), key);
        if serializationVersion != GenerationTimeVersion {
          VersionsSeparateNamespaces(Config(), cacheType, serializationVersion, GenerationTimeVersion, valueRoll, timeRoll);
        } else if Config().loadTestRollingFactor.Some? && valueRoll != timeRoll {
          DrawsSeparateNamespaces(Config(), cacheType, serializationVersion, GenerationTimeVersion, valueRoll, timeRoll);
        } else {
          assert Config().NamespaceParts(cacheType, serializationVersion, valueRoll)
                   == Config().NamespaceParts(cacheType, GenerationTimeVersion, timeRoll);
        }
      }
    }

    /** Under a load-test factor, a read with any other draw than the value's does not see
        the put value: it reads what was there before, or nothing when the generation time
        landed there; and the generation time is not seen under a third draw. Only one
        draw in `loadTestRollingFactor` finds what `put` wrote. */
    lemma PutUnseenUnderOtherDraw(store: map<string, map<K, MapCaching.MapCacheEntry<CachedValue<V>>>>, key: K, value: V,
                                  ttl: int, forceInvalidation: bool, now: int, valueRoll: int, timeRoll: int, readRoll: int)
      requires !EmptyRollingRange(Config()) && Drawable(Config(), valueRoll) && Drawable(Config(), timeRoll)
      requires Drawable(Config(), readRoll)
      requires Config().loadTestRollingFactor.Some? && readRoll != valueRoll
      ensures var after := StoreAfterPut(store, key, value, ttl, forceInvalidation, now, valueRoll, timeRoll);
              var seen := ValueOf(MapCaching.Lookup(after, ValueNamespace(readRoll), key));
              (seen == ValueOf(MapCaching.Lookup(store, ValueNamespace(readRoll), key)) || seen.None?) &&
              (!Config().IsUpdatableAsynchronously() || readRoll != timeRoll ==>
                 seen == ValueOf(MapCaching.Lookup(store, ValueNamespace(readRoll), key)))
      ensures readRoll != timeRoll ==>
                TimeOf(MapCaching.Lookup(StoreAfterPut(store, key, value, ttl, forceInvalidation, now, valueRoll, timeRoll),
                                         GenerationTimeNamespace(readRoll), key))
                  == TimeOf(MapCaching.Lookup(store, GenerationTimeNamespace(readRoll), key))
    {
      var entry := MapCaching.MapCacheEntry(ttl, Some(Value(value)), forceInvalidation);
      var s1 := MapCaching.PutEntries(store, ValueNamespace(valueRoll), map[key := entry]);
      DrawsSeparateNamespaces(Config(), cacheType, serializationVersion, serializationVersion, readRoll, valueRoll);
      DrawsSeparateNamespaces(Config(), cacheType, GenerationTimeVersion, serializationVersion, readRoll, valueRoll);
      MapCaching.LookupPutEntries(store, ValueNamespace(valueRoll), map[key := entry], ValueNamespace(readRoll), key);
      MapCaching.LookupPutEntries(store, ValueNamespace(valueRoll), map[key := entry], GenerationTimeNamespace(readRoll), key);
      if Config().IsUpdatableAsynchronously() {
        var timeEntry := MapCaching.MapCacheEntry(ttl, Some(GenerationTime(now)), forceInvalidation);
        MapCaching.LookupPutEntries(s1, GenerationTimeNamespace(timeRoll), map[key := timeEntry], ValueNamespace(readRoll), key);
        MapCaching.LookupPutEntries(s1, GenerationTimeNamespace(timeRoll), map[key := timeEntry], GenerationTimeNamespace(readRoll), key);
        if readRoll != timeRoll {
          DrawsSeparateNamespaces(Config(), cacheType, serializationVersion, GenerationTimeVersion, readRoll, timeRoll);
          DrawsSeparateNamespaces(Config(), cacheType, GenerationTimeVersion, GenerationTimeVersion, readRoll, timeRoll);
        }
      }
    }

    /** With a load-test factor f, of the f draws a later read can make exactly one finds a
        value that no draw found before the put: the one the put drew. This is the hit ratio
        of 1 / f the factor is for. */
    lemma PutHitsOneDrawOnly(store: map<string, map<K, MapCaching.MapCacheEntry<CachedValue<V>>>>, key: K, value: V,
                             ttl: int, forceInvalidation: bool, now: int, valueRoll: int, timeRoll: int)
      requires !EmptyRollingRange(Config()) && Drawable(Config(), valueRoll) && Drawable(Config(), timeRoll)
      requires Config().loadTestRollingFactor.Some? && ValueSurvivesTime(valueRoll, timeRoll)
      requires forall roll :: 1 <= roll <= Config().loadTestRollingFactor.value ==>
                 ValueOf(MapCaching.Lookup(store, ValueNamespace(roll), key)) != Some(value)
      ensures forall roll :: 1 <= roll <= Config().loadTestRollingFactor.value ==>
                (ValueOf(MapCaching.Lookup(StoreAfterPut(store, key, value, ttl, forceInvalidation, now, valueRoll, timeRoll),
                                           ValueNamespace(roll), key)) == Some(value)
                 <==> roll == valueRoll)
    {
      forall roll | 1 <= roll <= Config().loadTestRollingFactor.value
        ensures ValueOf(MapCaching.Lookup(StoreAfterPut(store, key, value, ttl, forceInvalidation, now, valueRoll, timeRoll),
                                          ValueNamespace(roll), key)) == Some(value)
                <==> roll == valueRoll
      {
        if roll == valueRoll {
          ValueReadAfterPut(store, key, value, ttl, forceInvalidation, now, valueRoll, timeRoll);
        } else {
          PutUnseenUnderOtherDraw(store, key, value, ttl, forceInvalidation, now, valueRoll, timeRoll, roll);
        }
      }
    }

    /** `put`, with one draw for the value's namespace and one for the generation time's:
        the value is stored with the override TTL, or the configured one. */
    method Put(key: K, value: V, ttlOverride: Option<int>, forceInvalidation: bool, now: int, valueRoll: int, timeRoll: int)
      returns (r: Outcome<Unit>)
      requires Drawable(Config(), valueRoll) && Drawable(Config(), timeRoll)
      modifies system
      ensures r.Thrown? <==> NamespaceThrows()
      ensures r.Thrown? ==> r.error == RollingError()
      ensures !Serving() ==> system.cacheMap == old(system.cacheMap)
      ensures Serving() ==>
                system.cacheMap == StoreAfterPut(old(system.cacheMap), key, value, Ttl(ttlOverride), forceInvalidation, now,
                                                 valueRoll, timeRoll)
      ensures Serving() && ValueSurvivesTime(valueRoll, timeRoll) ==> Get(key, valueRoll) == Ok(Some(value))
    {
      if !Enabled(Config()) {
        return Ok(Unit);
      }
      if EmptyRollingRange(Config()) {
        return Thrown(RollingError());
      }
      var ttl := Ttl(ttlOverride);
      ghost var before := system.cacheMap;
      system.SetObject(ValueNamespace(valueRoll), key, Value(value), ttl, forceInvalidation);
      if Config().IsUpdatableAsynchronously() {
        system.SetObject(GenerationTimeNamespace(timeRoll), key, GenerationTime(now), ttl, forceInvalidation);
      }
      ValueReadAfterPut(before, key, value, ttl, forceInvalidation, now, valueRoll, timeRoll);
      r := Ok(Unit);
    }

    /** The entries `putList` writes. */
    function ValueEntries(values: map<K, V>): (r: map<K, CachedValue<V>>)
      ensures r.Keys == values.Keys
      ensures forall k :: k in r ==> r[k] == Value(values[k])
    {
      map k | k in values :: Value(values[k])
    }

    /** `putList`, with the number drawn for its namespace: every value in the type's
        namespace with one TTL and flag; generation times are not written. */
    method PutList(values: map<K, V>, ttlOverride: Option<int>, forceInvalidation: bool, roll: int) returns (r: Outcome<Unit>)
      requires Drawable(Config(), roll)
      modifies system
      ensures r.Thrown? <==> NamespaceThrows()
      ensures r.Thrown? ==> r.error == RollingError()
      ensures !Serving() ==> system.cacheMap == old(system.cacheMap)
      ensures Serving() ==>
                system.cacheMap == MapCaching.PutEntries(old(system.cacheMap), ValueNamespace(roll),
                                                         MapCaching.UniformEntries(ValueEntries(values), Ttl(ttlOverride), forceInvalidation))
    {
      if !Enabled(Config()) {
        return Ok(Unit);
      }
      if EmptyRollingRange(Config()) {
        return Thrown(RollingError());
      }
      system.SetObjectList(ValueNamespace(roll), ValueEntries(values), Ttl(ttlOverride), forceInvalidation);
      r := Ok(Unit);
    }

    /** `invalidate`, with one draw for the value's namespace and one for the generation
        time's: the value, and the generation time of a type updated asynchronously, are
        invalidated. */
    method Invalidate(key: K, valueRoll: int, timeRoll: int) returns (r: Outcome<Unit>)
      requires Drawable(Config(), valueRoll) && Drawable(Config(), timeRoll)
      modifies system
      ensures r.Thrown? <==> NamespaceThrows()
      ensures r.Thrown? ==> r.error == RollingError()
      ensures !Serving() ==> system.cacheMap == old(system.cacheMap)
      ensures Serving() ==> Get(key, valueRoll) == Ok(None)
      ensures Serving() && Config().IsUpdatableAsynchronously() ==>
                system.GetObject(GenerationTimeNamespace(timeRoll), key).None?
      ensures Serving() && Config().IsUpdatableAsynchronously() ==>
                system.cacheMap == MapCaching.PutEntries(MapCaching.PutEntries(old(system.cacheMap), ValueNamespace(valueRoll), map[key := MapCaching.Tombstone()]),
                                                         GenerationTimeNamespace(timeRoll), map[key := MapCaching.Tombstone()])
      ensures Serving() && !Config().IsUpdatableAsynchronously() ==>
                system.cacheMap == MapCaching.PutEntries(old(system.cacheMap), ValueNamespace(valueRoll), map[key := MapCaching.Tombstone()])
    {
      if !Enabled(Config()) {
        return Ok(Unit);
      }
      if EmptyRollingRange(Config()) {
        return Thrown(RollingError());
      }
      system.InvalidateObject(ValueNamespace(valueRoll), key);
      if Config().IsUpdatableAsynchronously() {
        ghost var s1 := system.cacheMap;
        system.InvalidateObject(GenerationTimeNamespace(timeRoll), key);
        MapCaching.LookupPutEntries(s1, GenerationTimeNamespace(timeRoll), map[key := MapCaching.Tombstone()], ValueNamespace(valueRoll), key);
      }
      r := Ok(Unit);
    }

    /** `invalidateList`, with the number drawn for its namespace: tombstones for the
        listed keys in the type's namespace only. */
    method InvalidateList(keys: seq<K>, roll: int) returns (r: Outcome<Unit>)
      requires Drawable(Config(), roll)
      modifies system
      ensures r.Thrown? <==> NamespaceThrows()
      ensures r.Thrown? ==> r.error == RollingError()
      ensures !Serving() ==> system.cacheMap == old(system.cacheMap)
      ensures Serving() ==>
                system.cacheMap == MapCaching.PutEntries(old(system.cacheMap), ValueNamespace(roll), MapCaching.TombstoneEntries(keys))
    {
      if !Enabled(Config()) {
        return Ok(Unit);
      }
      if EmptyRollingRange(Config()) {
        return Thrown(RollingError());
      }
      system.InvalidateObjectList(ValueNamespace(roll), keys);
      r := Ok(Unit);
    }

    /** `getList`, with the number drawn for its namespace: the requested keys that hold a
        value, or nothing when disabled; it throws exactly when `get` does. */
    method GetList(keys: seq<K>, roll: int) returns (r: Outcome<map<K, V>>)
      requires Drawable(Config(), roll)
      ensures r.Thrown? <==> NamespaceThrows()
      ensures r.Thrown? ==> r.error == RollingError()
      ensures r.Ok? ==> forall k :: k in r.value <==> k in keys && Get(k, roll).Ok? && Get(k, roll).value.Some?
      ensures r.Ok? ==> forall k :: k in r.value ==> Get(k, roll) == Ok(Some(r.value[k]))
    {
      if !Enabled(Config()) {
        return Ok(map[]);
      }
      if EmptyRollingRange(Config()) {
        return Thrown(RollingError());
      }
      var stored := system.GetObjectList(ValueNamespace(roll), keys);
      r := Ok(map k | k in stored && stored[k].Value? :: stored[k].v);
    }

    /** `getOrPut`: the cached value when there is one, otherwise the generated value, which
        is stored with `forceInvalidation = false`; a disabled type only runs the generator.
        `regenerate` says whether an asynchronous regeneration is launched: the value is
        found, the type has an outdate time, and its generation time is outdated. Each
        namespace is built with its own draw: `getRoll` for the lookup of the value,
        `timeRoll` for that of its generation time, and `valueRoll` and `putTimeRoll` for
        the writes of a generated value. */
    method GetOrPut(key: K, generator: () -> V, now: int, getRoll: int, timeRoll: int, valueRoll: int, putTimeRoll: int)
      returns (r: Outcome<V>, regenerate: bool)
      requires Drawable(Config(), getRoll) && Drawable(Config(), timeRoll)
      requires Drawable(Config(), valueRoll) && Drawable(Config(), putTimeRoll)
      modifies system
      ensures !Enabled(Config()) ==> r == Ok(generator()) && system.cacheMap == old(system.cacheMap) && !regenerate
      ensures NamespaceThrows() ==> r == Thrown(RollingError()) && system.cacheMap == old(system.cacheMap) && !regenerate
      ensures Serving() && old(Cached(key, getRoll)).Some? ==>
                r == Ok(old(Cached(key, getRoll)).value) && system.cacheMap == old(system.cacheMap) &&
                regenerate == (Config().IsUpdatableAsynchronously() &&
                               Config().IsOutdated(TimeOf(system.GetObject(GenerationTimeNamespace(timeRoll), key)), now))
      ensures Serving() && old(Cached(key, getRoll)).None? ==>
                r == Ok(generator()) && !regenerate &&
                system.cacheMap == StoreAfterPut(old(system.cacheMap), key, generator(), Ttl(None), false, now, valueRoll, putTimeRoll)
    {
      regenerate := false;
      if !Enabled(Config()) {
        r := Ok(generator());
        return;
      }
      var found := Get(key, getRoll);
      if found.Thrown? {
        r := Thrown(found.error);
      } else if found.value.Some? {
        r := Ok(found.value.value);
        if Config().outdateTimeInSeconds.Some? {
          var ts := TimeOf(system.GetObject(GenerationTimeNamespace(timeRoll), key));
          regenerate := Config().IsOutdated(ts, now);
        }
      } else {
        r := Generate(key, generator, now, valueRoll, putTimeRoll);
      }
    }

    /** `generate`, with the draws for the namespaces `put` builds: the generator's value,
        stored without forcing invalidation. Its timer builds a namespace first, for the
        metrics only, so an empty rolling range throws before the generator runs. */
    method Generate(key: K, generator: () -> V, now: int, valueRoll: int, timeRoll: int) returns (r: Outcome<V>)
      requires Drawable(Config(), valueRoll) && Drawable(Config(), timeRoll)
      modifies system
      ensures EmptyRollingRange(Config()) ==> r == Thrown(RollingError()) && system.cacheMap == old(system.cacheMap)
      ensures !EmptyRollingRange(Config()) ==> r == Ok(generator())
      ensures !Serving() ==> system.cacheMap == old(system.cacheMap)
      ensures Serving() ==> system.cacheMap == StoreAfterPut(old(system.cacheMap), key, generator(), Ttl(None), false, now, valueRoll, timeRoll)
    {
      if EmptyRollingRange(Config()) {
        return Thrown(RollingError());
      }
      var v := generator();
      var stored := Put(key, v, None, false, now, valueRoll, timeRoll);
      r := Ok(v);
    }

    /** `getOrPutBlock`, with `getRoll` drawn for `getList` and `putRoll` for `putList`: the
        generator is called once, with exactly the keys that are not cached, in input order,
        and not at all when every key is cached; the generated values are stored without
        forcing invalidation and returned with the cached ones. A disabled type only calls
        the generator with all the keys. `generatorInput` is the argument the generator was
        called with, if it was called. */
    method GetOrPutBlock(keys: seq<K>, generator: seq<K> -> map<K, V>, getRoll: int, putRoll: int)
      returns (r: Outcome<map<K, V>>, generatorInput: Option<seq<K>>)
      requires Drawable(Config(), getRoll) && Drawable(Config(), putRoll)
      modifies system
      ensures !Enabled(Config()) ==>
                generatorInput == Some(keys) && r == Ok(generator(keys)) && system.cacheMap == old(system.cacheMap)
      ensures NamespaceThrows() ==>
                generatorInput.None? && r == Thrown(RollingError()) && system.cacheMap == old(system.cacheMap)
      ensures Serving() ==>
                var cached := CachedPart(keys, old(CachedValues(keys, getRoll)));
                var pending := Missing(keys, old(CachedValues(keys, getRoll)));
                (generatorInput.None? <==> pending == []) &&
                (pending == [] ==> r == Ok(cached) && system.cacheMap == old(system.cacheMap)) &&
                (pending != [] ==> generatorInput == Some(pending) && r == Ok(cached + generator(pending)) &&
                                   system.cacheMap == MapCaching.PutEntries(old(system.cacheMap), ValueNamespace(putRoll),
                                     MapCaching.UniformEntries(ValueEntries(generator(pending)), Ttl(None), false)))
    {
      if !Enabled(Config()) {
        generatorInput := Some(keys);
        r := Ok(generator(keys));
        return;
      }
      var got := GetList(keys, getRoll);
      if got.Thrown? {
        generatorInput := None;
        r := Thrown(got.error);
        return;
      }
      var cachedValues := got.value;
      assert cachedValues == CachedValues(keys, getRoll);
      var pending := Missing(keys, cachedValues);
      var cachedMap := CachedPart(keys, cachedValues);
      if pending == [] {
        generatorInput := None;
        r := Ok(cachedMap);
      } else {
        generatorInput := Some(pending);
        var generated := generator(pending);
        var stored := PutList(generated, None, false, putRoll);
        r := Ok(cachedMap + generated);
      }
    }

    /** The values `getList` finds for `keys` under the draw `roll`, as a function of the
        state. */
    function CachedValues(keys: seq<K>, roll: int): (r: map<K, V>)
      reads this, system
      requires !EmptyRollingRange(Config()) && Drawable(Config(), roll)
      ensures forall k :: k in r <==> k in keys && Cached(k, roll).Some?
    {
      map k | k in keys && Cached(k, roll).Some? :: Cached(k, roll).value
    }
  }
}
