/** A configuration source holding configuration objects given directly, one per class
    (io/github/andresviedma/poket/config/utils/ConstantConfigSource.kt). */
module ConfigSources {
  import opened Base

  /** A configuration object: its class, which keys it, and its content. */
  datatype ConfigObject = ConfigObject(configClass: string, content: string)

  /** `ConfigSourceReloadConfig`: after `outdateTime` time units the source is reloaded. */
  datatype ConfigSourceReloadConfig = ConfigSourceReloadConfig(outdateTime: Option<int>)

  /** `associateBy { it::class }`: each class to the last object of that class. */
  function AssociateByClass(objects: seq<ConfigObject>): (r: map<string, ConfigObject>)
    ensures forall c :: c in r <==> exists i :: 0 <= i < |objects| && objects[i].configClass == c
    ensures forall c :: c in r ==> r[c].configClass == c && r[c] in objects
  {
    if objects == [] then map[]
    else
      var n := |objects| - 1;
      var prev := AssociateByClass(objects[..n]);
      assert forall i :: 0 <= i < n ==> objects[..n][i] == objects[i];
      prev[objects[n].configClass := objects[n]]
  }

  /** An object that no later object of the same class follows is the one kept. */
  lemma {:induction false} LastOfClassIsKept(objects: seq<ConfigObject>, i: nat)
    requires i < |objects|
    requires forall j :: i < j < |objects| ==> objects[j].configClass != objects[i].configClass
    ensures AssociateByClass(objects)[objects[i].configClass] == objects[i]
  {
    var n := |objects| - 1;
    if i < n {
      assert objects[..n][i] == objects[i];
      LastOfClassIsKept(objects[..n], i);
    }
  }

  class ConstantConfigSource {
    var objects: map<string, ConfigObject>
    const reloadConfig: Option<ConfigSourceReloadConfig>
    /** The source's `ConfigPriority` value. */
    const priority: int

    predicate Valid()
      reads this
    {
      forall c :: c in objects ==> objects[c].configClass == c
    }

    constructor(configObjects: seq<ConfigObject>, reloadConfig: Option<ConfigSourceReloadConfig>, priority: int)
      ensures Valid()
      ensures objects == AssociateByClass(configObjects)
      ensures this.reloadConfig == reloadConfig && this.priority == priority
    {
      objects := AssociateByClass(configObjects);
      this.reloadConfig := reloadConfig;
      this.priority := priority;
    }

    /** `reloadInfo`: with a reload configuration the source may have changed. */
    predicate ReloadInfo() {
      reloadConfig.Some?
    }

    /** `getConfigObject`: the stored object of the class, if any. */
    function GetConfigObject(configClass: string): (r: Option<ConfigObject>)
      reads this
      ensures r.Some? <==> configClass in objects
      ensures Valid() && r.Some? ==> r.value.configClass == configClass
    {
      if configClass in objects then Some(objects[configClass]) else None
    }

    /** `getConfig`: the stored object of the class, else the configuration coming from the
        sources before this one. */
    function GetConfig(configClass: string, config: Option<ConfigObject>): (r: Option<ConfigObject>)
      reads this
      ensures configClass in objects ==> r == Some(objects[configClass])
      ensures configClass !in objects ==> r == config
    {
      GetConfigObject(configClass).OrElse(config)
    }

    /** `addConfigObject` / `override(configObject)`: replaces the entry of the object's class
        and no other. */
    method Override(configObject: ConfigObject)
      modifies this
      ensures old(Valid()) ==> Valid()
      ensures objects == old(objects)[configObject.configClass := configObject]
      ensures forall c :: GetConfigObject(c) == if c == configObject.configClass then Some(configObject) else old(GetConfigObject(c))
    {
      objects := objects[configObject.configClass := configObject];
    }

    /** `override(configClass, block)`: the stored object of the class, transformed by the
        block, is stored (under the class of the block's result); with no object stored
        nothing changes. */
    method OverrideWith(configClass: string, block: ConfigObject -> ConfigObject)
      modifies this
      ensures old(Valid()) ==> Valid()
      ensures configClass !in old(objects) ==> objects == old(objects)
      ensures configClass in old(objects) ==>
                var b := block(old(objects)[configClass]);
                objects == old(objects)[b.configClass := b]
    {
      var stored := GetConfigObject(configClass);
      if stored.Some? {
        Override(block(stored.value));
      }
    }

    /** `reset`: forgets every object. */
    method Reset()
      modifies this
      ensures objects == map[] && Valid()
    {
      objects := map[];
    }
  }
}
