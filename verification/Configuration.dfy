/** The configuration manager: four layers and their merge. */
module Configuration {
  import opened Prelude
  import opened Texts
  import opened ConfigTrees
  import opened Flattening

  class ConfigurationManager {
    var defaults: Tree
    var fileData: Tree
    var envData: Tree
    var overrides: Tree
    var merged: Tree

    /** The merged data are those of the four layers. */
    ghost predicate Valid()
      reads this
    {
      merged == MergeAll(Layers())
    }

    function Layers(): seq<Tree>
      reads this
    {
      [defaults, fileData, envData, overrides]
    }

    constructor (defaults: Tree, fileData: Tree, envData: Tree)
      ensures Valid() && Layers() == [defaults, fileData, envData, EMPTY]
    {
      this.defaults, this.fileData, this.envData, overrides, merged := defaults, fileData, envData, EMPTY, EMPTY;
      new;
      merged := MergeConfigs();
    }

    method MergeConfigs() returns (r: Tree)
      ensures r == MergeAll(Layers())
    {
      r := DeepUpdate(defaults, fileData);
      r := DeepUpdate(r, envData);
      r := DeepUpdate(r, overrides);
      FourLayers(defaults, fileData, envData, overrides);
    }

    /** `reload`: the defaults, the file and the environment are read again; the overrides stay. */
    method Reload(defaults: Tree, fileData: Tree, envData: Tree)
      requires Valid()
      modifies this
      ensures Valid() && Layers() == [defaults, fileData, envData, old(overrides)]
    {
      this.defaults, this.fileData, this.envData := defaults, fileData, envData;
      merged := MergeConfigs();
    }

    /** `get`: what the layers decide, for every default that is not a dictionary. */
    method Get(key: string, default: Value) returns (r: Value)
      requires Valid()
      ensures r == Walk(merged, Split(key, '.'), default)
      ensures !default.Dict? ==>
        match Presence(Decider(Layers(), Split(key, '.')))
        case Silent => r == default
        case Scalar(v) => r == if v == Null then default else v
        case Table => r.Dict? && Some(r) == Find(merged, Split(key, '.'))
        case Blocked => false
    {
      var keys := Split(key, '.');
      var value: Value := merged;
      for i := 0 to |keys|
        invariant Walk(merged, keys, default) == Walk(value, keys[i..], default)
      {
        assert keys[i..][0] == keys[i] && keys[i..][1..] == keys[i + 1..];
        if !value.Dict? {
          r := default;
          AnswerOfLayers(Layers(), keys, default);
          return;
        }
        value := if keys[i] in value.entries then value.entries[keys[i]] else default;
      }
      r := if value != Null then value else default;
      AnswerOfLayers(Layers(), keys, default);
    }

    /** `set`: refused, with nothing changed, when a scalar override is on the way; else read back, other paths untouched. */
    method Set(key: string, value: Value) returns (ok: bool)
      requires Valid()
      modifies this`overrides, this`merged
      ensures Valid()
      ensures ok <==> Look(old(overrides), Split(key, '.')) != Blocked
      ensures !ok ==> overrides == old(overrides) && merged == old(merged)
      ensures ok ==> Some(overrides) == SetDeep(old(overrides), Split(key, '.'), value)
      ensures ok && !value.Dict? ==> Find(merged, Split(key, '.')) == Some(value)
      ensures ok ==> forall other | Incomparable(Split(key, '.'), other) :: Find(merged, other) == Find(old(merged), other)
    {
      var parts := Split(key, '.');
      var changed := SetDeep(overrides, parts, value);
      SetRaisesIff(overrides, parts, value);
      if changed.None? {
        return false;
      }
      ghost var below := Merge(Merge(defaults, fileData), envData);
      FourLayers(defaults, fileData, envData, overrides);
      FourLayers(defaults, fileData, envData, changed.value);
      SetThenFind(overrides, parts, value);
      MergeLook(below, changed.value, parts);
      LookIsFind(Merge(below, changed.value), parts);
      forall other | Incomparable(parts, other)
        ensures Find(Merge(below, changed.value), other) == Find(Merge(below, overrides), other)
      {
        SetLeavesOthers(below, overrides, parts, value, other);
      }
      overrides := changed.value;
      merged := MergeConfigs();
      return true;
    }

    /** The namespace of a plugin. */
    static function Namespace(plugin: string): (r: Path)
      ensures r != [] && forall k | k in r :: '.' !in k
    {
      ["plugins"] + Split(plugin, '.')
    }

    /**
     `register_plugin_config` without a schema: the defaults are flattened and set key by key under
     the plugin's namespace. For defaults with dot-free keys and no empty dictionary this is refused
     exactly when a scalar is in the way, and otherwise merges them in; into empty defaults they
     come back as they were exactly when they are like that.
     */
    method RegisterPluginConfig(plugin: string, pluginDefaults: Tree) returns (ok: bool)
      requires Valid()
      modifies this`defaults, this`merged
      ensures if ok then Valid() else merged == old(merged)
      ensures Clean(pluginDefaults) ==> (ok <==> Unblocked(old(defaults), Namespace(plugin), pluginDefaults))
      ensures Clean(pluginDefaults) && pluginDefaults != EMPTY && ok ==>
                defaults == Merge(old(defaults), Nest(Namespace(plugin), pluginDefaults))
      ensures old(defaults) == EMPTY && pluginDefaults != EMPTY && ok ==>
                (Find(defaults, Namespace(plugin)) == Some(pluginDefaults) <==> Clean(pluginDefaults))
      ensures forall other | Incomparable(Namespace(plugin), other) :: Find(defaults, other) == Find(old(defaults), other)
    {
      ghost var t0, prefix := defaults, Namespace(plugin);
      var flat := Flatten(pluginDefaults);
      var next;
      SplitFirst("plugins", plugin, '.');
      next, ok := SetAll(defaults, "plugins" + ['.'] + plugin, flat, pluginDefaults);
      if ok {
        ghost var clean := Clean(pluginDefaults);
        if clean {
          ProgressEnds(t0, next, prefix, pluginDefaults, flat);
        }
        if t0 == EMPTY && pluginDefaults != EMPTY {
          RoundTripIff(next, prefix, pluginDefaults);
        }
      }
      defaults := next;
      if ok {
        merged := MergeConfigs();
      }
    }
  }
}
