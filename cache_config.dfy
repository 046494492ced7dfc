/** Per-type cache configuration and its resolution through override layers
    (io/github/andresviedma/poket/cache/CacheConfig.kt). */
module CacheConfiguration {
  import opened Base
  import Strings
  import Numbers

  /** The fields of a cache type configuration, so that override rules are stated once. */
  datatype Field =
    | CacheSystem | TtlInSeconds | Version | RequestCollapsing | DistributedComponentNamespace
    | Disabled | LoadTestRollingFactor | FailOnGetError | FailOnPutError | FailOnInvalidateError
    | OutdateTimeInSeconds

  datatype FieldValue = Text(s: string) | Number(n: int) | Flag(b: bool)

  /** Configuration of one cache type; every field may be undefined (null). */
  datatype CacheTypeConfig = CacheTypeConfig(
    cacheSystem: Option<string>,
    ttlInSeconds: Option<int>,
    version: Option<string>,
    requestCollapsing: Option<bool>,
    distributedComponentNamespace: Option<string>,
    disabled: Option<bool>,
    loadTestRollingFactor: Option<int>,
    failOnGetError: Option<bool>,
    failOnPutError: Option<bool>,
    failOnInvalidateError: Option<bool>,
    outdateTimeInSeconds: Option<int>)
  {
    /** The value of one field, if defined. */
    function Lookup(f: Field): Option<FieldValue> {
      match f
      case CacheSystem => TextOf(cacheSystem)
      case TtlInSeconds => NumberOf(ttlInSeconds)
      case Version => TextOf(version)
      case RequestCollapsing => FlagOf(requestCollapsing)
      case DistributedComponentNamespace => TextOf(distributedComponentNamespace)
      case Disabled => FlagOf(disabled)
      case LoadTestRollingFactor => NumberOf(loadTestRollingFactor)
      case FailOnGetError => FlagOf(failOnGetError)
      case FailOnPutError => FlagOf(failOnPutError)
      case FailOnInvalidateError => FlagOf(failOnInvalidateError)
      case OutdateTimeInSeconds => NumberOf(outdateTimeInSeconds)
    }

    /** `overriddenWith`: every field the override defines wins, the others are kept. */
    function OverriddenWith(typeOverride: Option<CacheTypeConfig>): (r: CacheTypeConfig)
      ensures forall f :: r.Lookup(f) == LayerGet(typeOverride, f).OrElse(Lookup(f))
      ensures typeOverride.None? ==> r == this
    {
      if typeOverride.None? then this
      else
        var o := typeOverride.value;
        CacheTypeConfig(
          o.cacheSystem.OrElse(cacheSystem),
          o.ttlInSeconds.OrElse(ttlInSeconds),
          o.version.OrElse(version),
          o.requestCollapsing.OrElse(requestCollapsing),
          o.distributedComponentNamespace.OrElse(distributedComponentNamespace),
          o.disabled.OrElse(disabled),
          o.loadTestRollingFactor.OrElse(loadTestRollingFactor),
          o.failOnGetError.OrElse(failOnGetError),
          o.failOnPutError.OrElse(failOnPutError),
          o.failOnInvalidateError.OrElse(failOnInvalidateError),
          o.outdateTimeInSeconds.OrElse(outdateTimeInSeconds))
    }

    /** `isUpdatableAsynchronously`. */
    predicate IsUpdatableAsynchronously(): (r: bool)
      ensures r <==> Lookup(OutdateTimeInSeconds).Some?
    {
      outdateTimeInSeconds.Some?
    }

    /** `isOutdated(generationTime, now)`, times in epoch milliseconds. The elapsed time is
        truncated toward zero to whole seconds before it is compared. */
    predicate IsOutdated(generationTime: Option<int>, nowMillis: int): (r: bool)
      ensures outdateTimeInSeconds.None? ==> !r
      ensures outdateTimeInSeconds.Some? && generationTime.None? ==> r
    {
      IsUpdatableAsynchronously() &&
      (generationTime.None? ||
       WholeSeconds(nowMillis - generationTime.value) > outdateTimeInSeconds.value)
    }

    /** The parts of `namespace(type, serializationVersion)` that are not null, in order.
        `rolling` is the number drawn from `1..loadTestRollingFactor`. */
    function NamespaceParts(cacheType: string, serializationVersion: string, rolling: int): (r: seq<string>)
      ensures |r| >= 2
      ensures r[if distributedComponentNamespace.Some? then 1 else 0] == cacheType
      ensures distributedComponentNamespace.Some? ==> r[0] == distributedComponentNamespace.value
      ensures loadTestRollingFactor.Some? ==> r[|r| - 1] == "r" + Numbers.IntToString(rolling)
      ensures |r| == 2 + (if distributedComponentNamespace.Some? then 1 else 0)
                       + (if version.Some? then 1 else 0)
                       + (if loadTestRollingFactor.Some? then 1 else 0)
    {
      (if distributedComponentNamespace.Some? then [distributedComponentNamespace.value] else [])
      + [cacheType, serializationVersion]
      + (if version.Some? then [version.value] else [])
      + (if loadTestRollingFactor.Some? then ["r" + Numbers.IntToString(rolling)] else [])
    }

    /** `namespace(type, serializationVersion)`: the defined parts joined with "-". Kotlin's
        `(1..f).random()` throws on an empty range, that is when the factor is below 1. */
    function Namespace(cacheType: string, serializationVersion: string, rolling: int): (r: Outcome<string>)
      requires loadTestRollingFactor.Some? && loadTestRollingFactor.value >= 1 ==>
                 1 <= rolling <= loadTestRollingFactor.value
      ensures r.Thrown? <==> loadTestRollingFactor.Some? && loadTestRollingFactor.value < 1
    {
      if loadTestRollingFactor.Some? && loadTestRollingFactor.value < 1 then
        Thrown(Exception({"NoSuchElementException", "RuntimeException", "Exception", "Throwable"},
                         "Cannot get random in empty range"))
      else Ok(Strings.Join(NamespaceParts(cacheType, serializationVersion, rolling), "-"))
    }
  }

  function TextOf(o: Option<string>): Option<FieldValue> { if o.Some? then Some(Text(o.value)) else None }
  function NumberOf(o: Option<int>): Option<FieldValue> { if o.Some? then Some(Number(o.value)) else None }
  function FlagOf(o: Option<bool>): Option<FieldValue> { if o.Some? then Some(Flag(o.value)) else None }

  /** The value of field `f` in an optional override layer. */
  function LayerGet(layer: Option<CacheTypeConfig>, f: Field): Option<FieldValue> {
    if layer.Some? then layer.value.Lookup(f) else None
  }

  /** Kotlin's `Duration.inWholeSeconds` of a duration given in milliseconds: truncated
      toward zero. */
  function WholeSeconds(millis: int): (r: int)
    ensures millis >= 0 ==> 0 <= r * 1000 <= millis < (r + 1) * 1000
    ensures millis < 0 ==> (r - 1) * 1000 < millis <= r * 1000 <= 0
  {
    if millis >= 0 then millis / 1000 else -((-millis) / 1000)
  }

  const EmptyTypeConfig := CacheTypeConfig(None, None, None, None, None, None, None, None, None, None, None)

  /** `CacheTypeConfig.DEFAULTS`: memory cache, 5 minutes of TTL, request collapsing on and
      no failure on cache system errors. */
  const Defaults := CacheTypeConfig(
    Some("memory"), Some(300), None, Some(true), None, None, None,
    Some(false), Some(false), Some(false), None)

  /** The whole cache configuration: per-type overrides and a global default. */
  datatype CacheConfig = CacheConfig(types: map<string, CacheTypeConfig>, default: CacheTypeConfig) {

    function TypeLayer(cacheType: string): Option<CacheTypeConfig> {
      if cacheType in types then Some(types[cacheType]) else None
    }

    /** `getTypeConfig(type, defaultTypeConfig)`: each field comes from the type's own
        entry, else the caller's default for the type, else the global default, else DEFAULTS.
        The fields DEFAULTS defines are therefore always defined. */
    function GetTypeConfig(cacheType: string, defaultTypeConfig: Option<CacheTypeConfig>): (r: CacheTypeConfig)
      ensures forall f ::
                r.Lookup(f) == LayerGet(TypeLayer(cacheType), f).OrElse(LayerGet(defaultTypeConfig, f))
                              .OrElse(default.Lookup(f)).OrElse(Defaults.Lookup(f))
      ensures r.cacheSystem.Some? && r.ttlInSeconds.Some? && r.requestCollapsing.Some?
      ensures r.failOnGetError.Some? && r.failOnPutError.Some? && r.failOnInvalidateError.Some?
    {
      var r := Defaults.OverriddenWith(Some(default)).OverriddenWith(defaultTypeConfig)
        .OverriddenWith(TypeLayer(cacheType));
      assert r.Lookup(CacheSystem).Some? && r.Lookup(TtlInSeconds).Some? && r.Lookup(RequestCollapsing).Some?;
      assert r.Lookup(FailOnGetError).Some? && r.Lookup(FailOnPutError).Some? && r.Lookup(FailOnInvalidateError).Some?;
      r
    }
  }

  /** With nothing configured, every type gets DEFAULTS. */
  lemma EmptyConfigGivesDefaults(cacheType: string)
    ensures CacheConfig(map[], EmptyTypeConfig).GetTypeConfig(cacheType, None) == Defaults
  {
  }

  /** A type is updated asynchronously exactly when its own entry, the caller's default or
      the global default sets an outdate time: DEFAULTS sets none. */
  lemma AsynchronousIffSomeLayerSetsOutdate(config: CacheConfig, cacheType: string, defaultTypeConfig: Option<CacheTypeConfig>)
    ensures config.GetTypeConfig(cacheType, defaultTypeConfig).IsUpdatableAsynchronously() <==>
              (cacheType in config.types && config.types[cacheType].outdateTimeInSeconds.Some?) ||
              (defaultTypeConfig.Some? && defaultTypeConfig.value.outdateTimeInSeconds.Some?) ||
              config.default.outdateTimeInSeconds.Some?
  {
    assert config.GetTypeConfig(cacheType, defaultTypeConfig).Lookup(OutdateTimeInSeconds)
             == LayerGet(config.TypeLayer(cacheType), OutdateTimeInSeconds).OrElse(LayerGet(defaultTypeConfig, OutdateTimeInSeconds))
                  .OrElse(config.default.Lookup(OutdateTimeInSeconds)).OrElse(Defaults.Lookup(OutdateTimeInSeconds));
  }

  /** A value generated at `generationTime` is outdated exactly when at least
      `outdateTimeInSeconds + 1` whole seconds have passed (for a non-negative setting). */
  lemma OutdatedThreshold(c: CacheTypeConfig, generationTime: int, nowMillis: int)
    requires c.outdateTimeInSeconds.Some? && c.outdateTimeInSeconds.value >= 0
    ensures c.IsOutdated(Some(generationTime), nowMillis) <==>
              nowMillis - generationTime >= (c.outdateTimeInSeconds.value + 1) * 1000
  {
    var m := nowMillis - generationTime;
    var t := c.outdateTimeInSeconds.value;
    var w := WholeSeconds(m);
    assert w > t ==> w * 1000 >= (t + 1) * 1000;
    assert m >= (t + 1) * 1000 ==> (w + 1) * 1000 > (t + 1) * 1000;
  }

  /** The namespace determines its parts when none of them contains "-". */
  lemma NamespaceSplitsBack(c: CacheTypeConfig, cacheType: string, serializationVersion: string, rolling: int)
    requires c.loadTestRollingFactor.Some? ==> 1 <= rolling <= c.loadTestRollingFactor.value
    requires forall p :: p in c.NamespaceParts(cacheType, serializationVersion, rolling) ==> '-' !in p
    ensures c.Namespace(cacheType, serializationVersion, rolling).Ok?
    ensures Strings.Split(c.Namespace(cacheType, serializationVersion, rolling).value, "-")
              == c.NamespaceParts(cacheType, serializationVersion, rolling)
  {
    var parts := c.NamespaceParts(cacheType, serializationVersion, rolling);
    assert forall i :: 0 <= i < |parts| ==> parts[i] in parts;
    Strings.SplitJoin(parts, "-");
  }
}
