/** Configuration objects by class, read from prioritised sources and cached
    (io/github/andresviedma/poket/config/ConfigProvider.kt). The sources modelled are
    constant configuration sources; the clock is a parameter. */
module ConfigProviders {
  import opened Base
  import opened ConfigSources
  import opened Sorting

  type Source = ConstantConfigSource

  function Priority(s: Source): int { s.priority }

  /** `sortedBy { it.priority }`: ascending priority, sources of equal priority in their
      given order (see `Sorting.SortByIsStable`). */
  function SortByPriority(s: seq<Source>): (r: seq<Source>)
    ensures SortedBy(r, Priority) && multiset(r) == multiset(s)
  {
    SortBy(s, Priority)
  }

  /** `fetchConfig`'s fold: each source gets the configuration the sources before it
      produced. */
  function FetchFrom(sources: seq<Source>, configClass: string, current: Option<ConfigObject>): (r: Option<ConfigObject>)
    reads sources
    ensures current.Some? ==> r.Some?
    ensures |sources| > 0 && configClass in sources[|sources| - 1].objects ==>
              r == Some(sources[|sources| - 1].objects[configClass])
  {
    if sources == [] then current
    else FetchFrom(sources[1..], configClass, sources[0].GetConfig(configClass, current))
  }

  /** With no source storing the class, the fold gives back what it started with. */
  lemma {:induction false} FetchFromNoSource(sources: seq<Source>, configClass: string, current: Option<ConfigObject>)
    requires forall i :: 0 <= i < |sources| ==> configClass !in sources[i].objects
    ensures FetchFrom(sources, configClass, current) == current
  {
    if sources != [] {
      FetchFromNoSource(sources[1..], configClass, current);
    }
  }

  /** The fold gives the object of the last source storing the class. */
  lemma {:induction false} FetchFromLastSource(sources: seq<Source>, configClass: string, current: Option<ConfigObject>, k: nat)
    requires k < |sources| && configClass in sources[k].objects
    requires forall i :: k < i < |sources| ==> configClass !in sources[i].objects
    ensures FetchFrom(sources, configClass, current) == Some(sources[k].objects[configClass])
  {
    var next := sources[0].GetConfig(configClass, current);
    if k == 0 {
      FetchFromNoSource(sources[1..], configClass, next);
    } else {
      FetchFromLastSource(sources[1..], configClass, next, k - 1);
    }
  }

  function NotConfigured(configClass: string): (e: Exception)
    ensures e.IsInstance(IllegalStateException)
  {
    IllegalState("Class " + configClass + " not configured")
  }

  /** A source is reloaded when it has a reload time, was loaded before, and more than that
      time has passed since. */
  predicate ReloadDue(s: Source, lastUpdated: map<Source, int>, now: int) {
    s.reloadConfig.Some? && s.reloadConfig.value.outdateTime.Some? && s in lastUpdated &&
    now - lastUpdated[s] > s.reloadConfig.value.outdateTime.value
  }

  /** Some source due for reload reports a change. */
  predicate SomethingChanged(sources: seq<Source>, lastUpdated: map<Source, int>, now: int) {
    exists i :: 0 <= i < |sources| && ReloadDue(sources[i], lastUpdated, now) && sources[i].ReloadInfo()
  }

  /** The load times once the reload check has gone through `done`, in order: each source
      due for reload gets `now`. */
  function AfterReload(done: seq<Source>, lastUpdated: map<Source, int>, now: int): (r: map<Source, int>)
    ensures r.Keys == lastUpdated.Keys
  {
    if done == [] then lastUpdated
    else
      var prev := AfterReload(done[..|done| - 1], lastUpdated, now);
      var s := done[|done| - 1];
      if ReloadDue(s, lastUpdated, now) then prev[s := now] else prev
  }

  /** After the check, a source's load time is `now` if it was checked and due, and its
      old load time otherwise. */
  lemma {:induction false} AfterReloadTimes(done: seq<Source>, lastUpdated: map<Source, int>, now: int, s: Source)
    requires s in lastUpdated
    ensures AfterReload(done, lastUpdated, now)[s] ==
              if s in done && ReloadDue(s, lastUpdated, now) then now else lastUpdated[s]
  {
    if done != [] {
      var init := done[..|done| - 1];
      AfterReloadTimes(init, lastUpdated, now, s);
      assert done == init + [done[|done| - 1]];
    }
  }

  class ConfigProvider {
    const sources: seq<Source>
    var cachedConfigs: map<string, ConfigObject>
    var warmedUp: bool
    var sourcesLastUpdated: map<Source, int>

    /** The sources come from a set, so they are distinct. */
    constructor(configSources: seq<Source>)
      requires Distinct(configSources)
      ensures sources == SortByPriority(configSources) && Distinct(sources)
      ensures cachedConfigs == map[] && !warmedUp && sourcesLastUpdated == map[]
    {
      sources := SortByPriority(configSources);
      cachedConfigs := map[];
      warmedUp := false;
      sourcesLastUpdated := map[];
      new;
      DistinctPermutation(configSources, sources);
    }

    /** What the sources give now for the class. */
    function Fetched(configClass: string): Option<ConfigObject>
      reads sources
    {
      FetchFrom(sources, configClass, None)
    }

    /** `warmup`: the first time, every source is loaded at `now`. */
    method Warmup(now: int)
      modifies this
      ensures warmedUp && cachedConfigs == old(cachedConfigs)
      ensures old(warmedUp) ==> sourcesLastUpdated == old(sourcesLastUpdated)
      ensures !old(warmedUp) ==> sourcesLastUpdated == old(sourcesLastUpdated) + map s | s in sources :: now
    {
      if !warmedUp {
        var i := 0;
        while i < |sources|
          invariant 0 <= i <= |sources| && cachedConfigs == old(cachedConfigs)
          invariant sourcesLastUpdated == old(sourcesLastUpdated) + map s | s in sources[..i] :: now
        {
          var _ := sources[i].ReloadInfo();
          sourcesLastUpdated := sourcesLastUpdated[sources[i] := now];
          assert sources[..i + 1] == sources[..i] + [sources[i]];
          i := i + 1;
        }
        assert sources[..i] == sources;
        warmedUp := true;
      }
    }

    /** `fetchConfig`: the fold over the sources; a result is cached, no result is an
        error. */
    method FetchConfig(configClass: string) returns (r: Outcome<ConfigObject>)
      modifies this
      ensures Fetched(configClass).Some? ==>
                r == Ok(Fetched(configClass).value) && cachedConfigs == old(cachedConfigs)[configClass := r.value]
      ensures Fetched(configClass).None? ==> r == Thrown(NotConfigured(configClass)) && cachedConfigs == old(cachedConfigs)
      ensures warmedUp == old(warmedUp) && sourcesLastUpdated == old(sourcesLastUpdated)
    {
      var fetched := FetchFrom(sources, configClass, None);
      if fetched.Some? {
        cachedConfigs := cachedConfigs[configClass := fetched.value];
        r := Ok(fetched.value);
      } else {
        r := Thrown(NotConfigured(configClass));
      }
    }

    /** `getConfig`: warms up first if needed; a cached value is returned as it is, even if
        the sources changed since; otherwise the value is fetched. */
    method GetConfig(configClass: string, now: int) returns (r: Outcome<ConfigObject>)
      modifies this
      ensures warmedUp
      ensures configClass in old(cachedConfigs) ==> r == Ok(old(cachedConfigs)[configClass]) && cachedConfigs == old(cachedConfigs)
      ensures configClass !in old(cachedConfigs) && Fetched(configClass).Some? ==>
                r == Ok(Fetched(configClass).value) && cachedConfigs == old(cachedConfigs)[configClass := r.value]
      ensures configClass !in old(cachedConfigs) && Fetched(configClass).None? ==>
                r == Thrown(NotConfigured(configClass)) && cachedConfigs == old(cachedConfigs)
    {
      if !warmedUp {
        Warmup(now);
      }
      if configClass in cachedConfigs {
        r := Ok(cachedConfigs[configClass]);
      } else {
        r := FetchConfig(configClass);
      }
    }

    /** `source<ConstantConfigSource>()`: the first of the sources. */
    function ConstantSource(): (r: Option<Source>)
      ensures r.Some? <==> sources != []
      ensures r.Some? ==> r.value == sources[0]
    {
      if sources == [] then None else Some(sources[0])
    }

    /** `override(config)`: the object replaces its class's entry in the constant source,
        and the cache is cleared in every case. */
    method Override(configObject: ConfigObject)
      modifies this, if sources == [] then {} else {sources[0]}
      ensures cachedConfigs == map[]
      ensures sources != [] ==> sources[0].objects == old(sources[0].objects)[configObject.configClass := configObject]
      ensures warmedUp == old(warmedUp) && sourcesLastUpdated == old(sourcesLastUpdated)
    {
      var source := ConstantSource();
      if source.Some? {
        source.value.Override(configObject);
      }
      cachedConfigs := map[];
    }

    /** `override(configClass, block)`: as `Override`, with the stored object transformed by
        the block; the cache is cleared even when nothing is stored. */
    method OverrideWith(configClass: string, block: ConfigObject -> ConfigObject)
      modifies this, if sources == [] then {} else {sources[0]}
      ensures cachedConfigs == map[]
      ensures sources != [] && configClass !in old(sources[0].objects) ==> sources[0].objects == old(sources[0].objects)
      ensures sources != [] && configClass in old(sources[0].objects) ==>
                var b := block(old(sources[0].objects)[configClass]);
                sources[0].objects == old(sources[0].objects)[b.configClass := b]
      ensures warmedUp == old(warmedUp) && sourcesLastUpdated == old(sourcesLastUpdated)
    {
      var source := ConstantSource();
      if source.Some? {
        source.value.OverrideWith(configClass, block);
      }
      cachedConfigs := map[];
    }

    /** `reloadOutdatedConfigSources`: every source due is reloaded and its load time set to
        `now`; the cache is cleared exactly when one of them reports a change. */
    method ReloadOutdatedConfigSources(now: int)
      requires Distinct(sources)
      modifies this
      ensures sourcesLastUpdated == AfterReload(sources, old(sourcesLastUpdated), now)
      ensures cachedConfigs == if SomethingChanged(sources, old(sourcesLastUpdated), now) then map[] else old(cachedConfigs)
      ensures warmedUp == old(warmedUp)
    {
      var last := sourcesLastUpdated;
      var updated := last;
      var somethingChanged := false;
      var i := 0;
      while i < |sources|
        modifies {}
        invariant 0 <= i <= |sources|
        invariant updated == AfterReload(sources[..i], last, now)
        invariant somethingChanged <==> SomethingChanged(sources[..i], last, now)
      {
        var source := sources[i];
        assert source !in sources[..i];
        ReloadNext(sources, i, last, now);
        var lastUpdate := if source in updated then Some(updated[source]) else None;
        var ttl := if source.reloadConfig.Some? then source.reloadConfig.value.outdateTime else None;
        var due := ttl.Some? && lastUpdate.Some? && now - lastUpdate.value > ttl.value;
        assert due == ReloadDue(source, last, now);
        var reloaded := false;
        if due {
          reloaded := source.ReloadInfo();
          updated := updated[source := now];
        }
        somethingChanged := somethingChanged || reloaded;
        i := i + 1;
      }
      assert sources[..i] == sources;
      sourcesLastUpdated := updated;
      if somethingChanged {
        cachedConfigs := map[];
      }
    }
  }

  /** A value, once read, stays cached when a source that does not reload changes. */
  method CachedValueOutlivesSourceChange(configClass: string, before: string, after: string)
    returns (first: Outcome<ConfigObject>, second: Outcome<ConfigObject>)
    ensures first == Ok(ConfigObject(configClass, before)) && second == first
  {
    var baseSource := new ConstantConfigSource([], Some(ConfigSourceReloadConfig(Some(60000))), 0);
    var appSource := new ConstantConfigSource([], None, 1);
    SortTwoSources(appSource, baseSource);
    var provider := new ConfigProvider([appSource, baseSource]);
    appSource.Override(ConfigObject(configClass, before));
    assert configClass !in baseSource.objects;
    assert provider.Fetched(configClass) == Some(ConfigObject(configClass, before)) by {
      assert baseSource.GetConfig(configClass, None) == None;
      assert FetchFrom([appSource], configClass, None) == Some(ConfigObject(configClass, before));
    }
    assert configClass !in provider.cachedConfigs;
    first := provider.GetConfig(configClass, 0);
    assert first == Ok(ConfigObject(configClass, before));
    assert provider.cachedConfigs[configClass] == ConfigObject(configClass, before);
    appSource.Override(ConfigObject(configClass, after));
    assert provider.cachedConfigs[configClass] == ConfigObject(configClass, before);
    second := provider.GetConfig(configClass, 0);
  }

  /** A source of higher priority is folded later, so its object wins. */
  method HigherPriorityWins(configClass: string, low: string, high: string) returns (r: Outcome<ConfigObject>)
    ensures r == Ok(ConfigObject(configClass, high))
  {
    var baseSource := new ConstantConfigSource([ConfigObject(configClass, low)], None, 0);
    var appSource := new ConstantConfigSource([ConfigObject(configClass, high)], None, 1);
    SortTwoSources(appSource, baseSource);
    var provider := new ConfigProvider([appSource, baseSource]);
    assert appSource.objects[configClass] == ConfigObject(configClass, high);
    FetchFromLastSource(provider.sources, configClass, None, 1);
    assert provider.Fetched(configClass) == Some(ConfigObject(configClass, high));
    assert configClass !in provider.cachedConfigs;
    r := provider.GetConfig(configClass, 0);
  }

  /** Two sources given in descending priority are put in ascending order. */
  lemma SortTwoSources(high: Source, low: Source)
    requires Priority(low) < Priority(high)
    ensures SortByPriority([high, low]) == [low, high]
  {
    assert [high, low][1..] == [low];
    assert SortBy([low], Priority) == [low];
    assert InsertBy(high, [low], Priority) == [low, high];
  }

  /** One more source in the reload loop: its own load time is still the old one, and it
      is the only entry that may change. */
  lemma ReloadStep(done: seq<Source>, s: Source, last: map<Source, int>, now: int)
    requires s !in done
    ensures s in last ==> AfterReload(done, last, now)[s] == last[s]
    ensures AfterReload(done + [s], last, now) ==
              if ReloadDue(s, last, now) then AfterReload(done, last, now)[s := now] else AfterReload(done, last, now)
    ensures SomethingChanged(done + [s], last, now) <==>
              SomethingChanged(done, last, now) || (ReloadDue(s, last, now) && s.ReloadInfo())
  {
    var ext := done + [s];
    assert ext[..|done|] == done;
    if s in last {
      AfterReloadTimes(done, last, now, s);
    }
    if SomethingChanged(ext, last, now) && !(ReloadDue(s, last, now) && s.ReloadInfo()) {
      var j :| 0 <= j < |ext| && ReloadDue(ext[j], last, now) && ext[j].ReloadInfo();
      assert j < |done| && done[j] == ext[j];
    }
    if SomethingChanged(done, last, now) {
      var j :| 0 <= j < |done| && ReloadDue(done[j], last, now) && done[j].ReloadInfo();
      assert ext[j] == done[j];
    }
    if ReloadDue(s, last, now) && s.ReloadInfo() {
      assert ext[|done|] == s;
    }
  }

  /** `ReloadStep` for the next source of the reload loop. */
  lemma ReloadNext(sources: seq<Source>, i: nat, last: map<Source, int>, now: int)
    requires i < |sources| && sources[i] !in sources[..i]
    ensures sources[i] in last ==> AfterReload(sources[..i], last, now)[sources[i]] == last[sources[i]]
    ensures AfterReload(sources[..i + 1], last, now) ==
              if ReloadDue(sources[i], last, now) then AfterReload(sources[..i], last, now)[sources[i] := now]
              else AfterReload(sources[..i], last, now)
    ensures SomethingChanged(sources[..i + 1], last, now) <==>
              SomethingChanged(sources[..i], last, now) || (ReloadDue(sources[i], last, now) && sources[i].ReloadInfo())
  {
    assert sources[..i + 1] == sources[..i] + [sources[i]];
    ReloadStep(sources[..i], sources[i], last, now);
  }

  /** A permutation of distinct elements is distinct. */
  lemma DistinctPermutation<X>(a: seq<X>, b: seq<X>)
    requires Distinct(a) && multiset(a) == multiset(b)
    ensures Distinct(b)
  {
    forall i, j | 0 <= i < j < |b| ensures b[i] != b[j] {
      if b[i] == b[j] {
        assert multiset(b)[b[i]] >= 2 by {
          assert b == b[..i] + [b[i]] + b[i + 1..j] + [b[j]] + b[j + 1..];
        }
        DistinctCount(a, b[i]);
      }
    }
  }

  lemma {:induction false} DistinctCount<X>(a: seq<X>, x: X)
    requires Distinct(a)
    ensures multiset(a)[x] <= 1
  {
    if a != [] {
      DistinctCount(a[1..], x);
      assert a == [a[0]] + a[1..];
      assert a[0] !in a[1..];
    }
  }
}
