/**
 * The configuration loader (core/config_loader.py): user settings are merged
 * recursively over the built-in defaults, discovered architecture layers get
 * a colour each and are overridden key by key by the user's layers, a
 * `(root)` layer is added when missing, and the wizard's updates are written
 * into the configuration under dotted keys. YAML documents are `Value`s; the
 * file system (the discovered layer keys) and the random palette are inputs.
 */
module ConfigLoader {
  import opened Wrappers
  import opened Strings

  /** A YAML value. */
  datatype Value = Null | Bool(b: bool) | Int(i: int) | Str(s: string) | List(items: seq<Value>) | Dict(entries: map<string, Value>)

  /** Python truthiness of a YAML value. */
  predicate IsTruthy(v: Value)
  {
    match v
    case Null => false
    case Bool(b) => b
    case Int(i) => i != 0
    case Str(s) => s != ""
    case List(items) => items != []
    case Dict(entries) => entries != map[]
  }

  /** `d.get(key, default)`. */
  function Get(d: map<string, Value>, key: string, default: Value): Value
  {
    if key in d then d[key] else default
  }

  /** `DEFAULT_PARSER_CONFIG`. */
  function DefaultParserConfig(): map<string, Value>
  {
    map["alias_resolution" := Dict(map["exclude_patterns" := List([Str("*.tests.*"), Str("*._*")])])]
  }

  /** The `node_styles` shared by both graphs of `DEFAULT_VIS_CONFIG`. */
  function DefaultNodeStyles(): Value
  {
    Dict(map[
      "show_docstrings" := Bool(true),
      "title" := Dict(map["font_size" := Int(11), "path_color" := Str("#555555"), "main_color" := Str("#000000")]),
      "docstring" := Dict(map["font_size" := Int(9), "color" := Str("#333333"), "spacing" := Int(8)])])
  }

  /** One entry of the default semantic link styles. */
  function LinkStyle(style: string, color: string, text: string): Value
  {
    Dict(map["style" := Str(style), "color" := Str(color), "label" := Str(text)])
  }

  /** `DEFAULT_VIS_CONFIG`. */
  function DefaultVisConfig(): map<string, Value>
  {
    map[
      "component_interaction_graph" := Dict(map[
        "layout_engine" := Str("dot"),
        "dpi" := Int(200),
        "render_timeout" := Int(300),
        "layout" := Dict(map[
          "show_internal_calls" := Bool(false),
          "aspect_ratio" := Str("auto"),
          "min_component_size_to_render" := Int(2),
          "stagger_groups" := Int(3)]),
        "node_styles" := DefaultNodeStyles(),
        "filtering" := Dict(map["exclude_nodes" := List([])]),
        "focus" := Dict(map[
          "entrypoints" := List([]),
          "initial_depth" := Int(2),
          "enable_dynamic_depth" := Bool(true),
          "min_nodes" := Int(10),
          "max_search_depth" := Int(7),
          "direction" := Str("both"),
          "max_nodes_for_bidirectional" := Int(500),
          "auto_downstream_fallback" := Bool(true)]),
        "semantic_analysis" := Dict(map[
          "enabled" := Bool(true),
          "links" := Dict(map[
            "registers" := LinkStyle("dashed", "#1E90FF", "registers"),
            "inherits_from" := LinkStyle("dotted", "#32CD32", "inherits"),
            "decorates" := LinkStyle("dashed", "#FF8C00", "decorates"),
            "proxies" := Dict(map["style" := Str("dashed"), "color" := Str("#9932CC"), "label" := Str("proxies"),
                                  "arrowhead" := Str("tee")]),
            "uses_strategy" := LinkStyle("bold", "#FF69B4", "uses_strategy"),
            "depends_on" := LinkStyle("dashed", "#DAA520", "depends_on")])])]),
      "dynamic_behavior_graph" := Dict(map[
        "layout_engine" := Str("dot"),
        "dpi" := Int(200),
        "node_styles" := DefaultNodeStyles()])]
  }

  // ---------------------------------------------------------------------
  // the recursive merge
  // ---------------------------------------------------------------------

  /** The value `_merge_configs` leaves under a key of the default or the user settings. */
  function MergedEntry(default: map<string, Value>, user: map<string, Value>, k: string): Value
    requires k in default || k in user
    decreases Dict(user), 0
  {
    if k in user then
      if user[k].Dict? && k in default && default[k].Dict? then Dict(Merge(default[k].entries, user[k].entries))
      else user[k]
    else default[k]
  }

  /** The merge of the user settings over the defaults. */
  function Merge(default: map<string, Value>, user: map<string, Value>): (r: map<string, Value>)
    ensures r.Keys == default.Keys + user.Keys
    decreases Dict(user), 1
  {
    map k | k in default.Keys + user.Keys :: MergedEntry(default, user, k)
  }

  /** `lookup` of a key path in nested dictionaries. */
  function Lookup(d: map<string, Value>, path: seq<string>): Option<Value>
    requires |path| >= 1
    decreases |path|
  {
    if path[0] !in d then None
    else if |path| == 1 then Some(d[path[0]])
    else if d[path[0]].Dict? then Lookup(d[path[0]].entries, path[1..])
    else None
  }

  /** Merging empty user settings returns the defaults as they are. */
  lemma MergeEmpty(default: map<string, Value>)
    ensures Merge(default, map[]) == default
  {
  }

  /**
   * Every value the user sets reaches the merged settings: a path that leads
   * to a non-dictionary value in the user settings leads to that value after
   * the merge.
   */
  lemma {:induction false} MergeKeepsUserValues(default: map<string, Value>, user: map<string, Value>, path: seq<string>)
    requires |path| >= 1 && Lookup(user, path).Some? && !Lookup(user, path).value.Dict?
    ensures Lookup(Merge(default, user), path) == Lookup(user, path)
    decreases |path|
  {
    var k := path[0];
    var merged := Merge(default, user);
    assert merged[k] == MergedEntry(default, user, k);
    if |path| > 1 {
      if k in default && default[k].Dict? {
        MergeKeepsUserValues(default[k].entries, user[k].entries, path[1..]);
      }
    }
  }

  /**
   * Every default the user does not override survives: a path that leads to a
   * value in the defaults and on which the user sets nothing leads to that
   * value after the merge.
   */
  lemma {:induction false} MergeKeepsDefaults(default: map<string, Value>, user: map<string, Value>, path: seq<string>)
    requires |path| >= 1 && Lookup(default, path).Some?
    requires forall i :: 1 <= i <= |path| ==> Lookup(user, path[..i]).None? || Lookup(user, path[..i]).value.Dict?
    requires Lookup(user, path).None?
    ensures Lookup(Merge(default, user), path) == Lookup(default, path)
    decreases |path|
  {
    var k := path[0];
    var merged := Merge(default, user);
    assert merged[k] == MergedEntry(default, user, k);
    assert path[..1] == [k];
    if |path| > 1 && k in user {
      assert Lookup(user, path[..1]) == Some(user[k]);
      var rest := path[1..];
      forall i | 1 <= i <= |rest|
        ensures Lookup(user[k].entries, rest[..i]).None? || Lookup(user[k].entries, rest[..i]).value.Dict?
      {
        assert path[..i + 1][1..] == rest[..i];
        assert path[..i + 1][0] == k;
      }
      MergeKeepsDefaults(default[k].entries, user[k].entries, rest);
    }
  }

  /** Merging settings into themselves changes nothing. */
  lemma {:induction false} MergeSelf(d: map<string, Value>)
    ensures Merge(d, d) == d
    decreases Dict(d)
  {
    forall k | k in d ensures Merge(d, d)[k] == d[k] {
      if d[k].Dict? {
        MergeSelf(d[k].entries);
      }
    }
  }

  /** Merging the same user settings twice gives what merging them once gives. */
  lemma {:induction false} MergeIdempotent(default: map<string, Value>, user: map<string, Value>)
    ensures Merge(Merge(default, user), user) == Merge(default, user)
    decreases Dict(user)
  {
    var once := Merge(default, user);
    forall k | k in once ensures Merge(once, user)[k] == once[k] {
      assert once[k] == MergedEntry(default, user, k);
      if k in user && user[k].Dict? {
        if k in default && default[k].Dict? {
          MergeIdempotent(default[k].entries, user[k].entries);
        } else {
          MergeSelf(user[k].entries);
        }
      }
    }
  }

  /** `_merge_configs`: the user's keys are written into the defaults, recursing where both values are dictionaries. */
  method MergeConfigs(default: map<string, Value>, user: map<string, Value>) returns (merged: map<string, Value>)
    ensures merged == Merge(default, user)
    decreases Dict(user), 1
  {
    ghost var target := Merge(default, user);
    MergeUntouched(default, user);
    merged := default;
    var todo := user.Keys;
    while todo != {}
      invariant WrittenUpTo(default, user.Keys, target, merged, todo)
      decreases |todo|
    {
      var key :| key in todo;
      var entry := MergeValue(if key in merged then Some(merged[key]) else None, user[key]);
      assert entry == target[key] by {
        assert target[key] == MergedEntry(default, user, key);
      }
      WriteStep(default, user.Keys, target, merged, todo, key, entry);
      merged := merged[key := entry];
      todo := todo - {key};
    }
    WrittenAll(default, user.Keys, target, merged, todo);
  }

  /** The defaults the user does not set are kept by the merge. */
  lemma MergeUntouched(default: map<string, Value>, user: map<string, Value>)
    ensures forall k :: k in default && k !in user ==> Merge(default, user)[k] == default[k]
  {
  }

  /** The loop state of `_merge_configs`: the done keys hold their target values, the others their defaults. */
  ghost predicate WrittenUpTo<K, V>(default: map<K, V>, userKeys: set<K>, target: map<K, V>, merged: map<K, V>, todo: set<K>)
  {
    todo <= userKeys
    && target.Keys == default.Keys + userKeys
    && (forall k :: k in default && k !in userKeys ==> target[k] == default[k])
    && merged.Keys == default.Keys + (userKeys - todo)
    && (forall k :: k in userKeys - todo ==> merged[k] == target[k])
    && (forall k :: k in default && k !in userKeys - todo ==> merged[k] == default[k])
  }

  lemma WriteStep<K, V>(default: map<K, V>, userKeys: set<K>, target: map<K, V>, merged: map<K, V>, todo: set<K>,
                        key: K, entry: V)
    requires WrittenUpTo(default, userKeys, target, merged, todo) && key in todo && entry == target[key]
    ensures WrittenUpTo(default, userKeys, target, merged[key := entry], todo - {key})
  {
  }

  lemma WrittenAll<K, V>(default: map<K, V>, userKeys: set<K>, target: map<K, V>, merged: map<K, V>, todo: set<K>)
    requires WrittenUpTo(default, userKeys, target, merged, todo) && todo == {}
    ensures merged == target
  {
    assert userKeys - todo == userKeys;
  }

  /** One iteration of `_merge_configs`: the value written under a user key, given what the defaults hold there. */
  method MergeValue(current: Option<Value>, value: Value) returns (entry: Value)
    ensures value.Dict? && current.Some? && current.value.Dict? ==> entry == Dict(Merge(current.value.entries, value.entries))
    ensures !(value.Dict? && current.Some? && current.value.Dict?) ==> entry == value
    decreases value, 2
  {
    if value.Dict? && current.Some? && current.value.Dict? {
      var sub := MergeConfigs(current.value.entries, value.entries);
      entry := Dict(sub);
    } else {
      entry := value;
    }
  }

  // ---------------------------------------------------------------------
  // the dotted-key update
  // ---------------------------------------------------------------------

  /**
   * One update of `update_config_file`: walk the path with `setdefault`,
   * creating missing dictionaries, and assign the last segment; `None` when
   * the walk meets a value that is not a dictionary, which raises.
   */
  function SetPath(d: map<string, Value>, path: seq<string>, value: Value): (r: Option<map<string, Value>>)
    requires |path| >= 1
    ensures r.Some? ==> r.value.Keys == d.Keys + {path[0]}
    ensures r.Some? ==> forall k :: k in d && k != path[0] ==> r.value[k] == d[k]
    ensures r.Some? && |path| > 1 ==> r.value[path[0]].Dict?
    decreases |path|
  {
    var k := path[0];
    if |path| == 1 then Some(d[k := value])
    else
      var child := if k in d then d[k] else Dict(map[]);
      if !child.Dict? then None
      else match SetPath(child.entries, path[1..], value)
        case None => None
        case Some(c) => Some(d[k := Dict(c)])
  }

  /** Two key paths part ways: neither is a prefix of the other. */
  predicate Diverge(p: seq<string>, q: seq<string>)
  {
    |p| > 0 && |q| > 0 && (p[0] != q[0] || Diverge(p[1..], q[1..]))
  }

  /** After an update the path leads to the new value. */
  lemma {:induction false} SetPathFound(d: map<string, Value>, path: seq<string>, value: Value)
    requires |path| >= 1 && SetPath(d, path, value).Some?
    ensures Lookup(SetPath(d, path, value).value, path) == Some(value)
    decreases |path|
  {
    if |path| > 1 {
      var child := if path[0] in d then d[path[0]] else Dict(map[]);
      SetPathFound(child.entries, path[1..], value);
    }
  }

  /** An update leaves every path that parts ways with its own as it was: siblings are untouched. */
  lemma {:induction false} SetPathOthers(d: map<string, Value>, path: seq<string>, value: Value, other: seq<string>)
    requires |path| >= 1 && |other| >= 1 && SetPath(d, path, value).Some? && Diverge(path, other)
    ensures Lookup(SetPath(d, path, value).value, other) == Lookup(d, other)
    decreases |path|
  {
    if path[0] == other[0] {
      var child := if path[0] in d then d[path[0]] else Dict(map[]);
      SetPathOthers(child.entries, path[1..], value, other[1..]);
      if path[0] !in d {
        EmptyLookup(other[1..]);
      }
    }
  }

  lemma EmptyLookup(path: seq<string>)
    requires |path| >= 1
    ensures Lookup(map[], path) == None
  {
  }

  /** A proper prefix of the path leads to a value that is not a dictionary. */
  ghost predicate Blocked(d: map<string, Value>, path: seq<string>)
  {
    exists i :: 1 <= i < |path| && Lookup(d, path[..i]).Some? && !Lookup(d, path[..i]).value.Dict?
  }

  /** An update fails exactly when some proper prefix of its path leads to a value that is not a dictionary. */
  lemma {:induction false} SetPathFails(d: map<string, Value>, path: seq<string>, value: Value)
    requires |path| >= 1
    ensures SetPath(d, path, value).None? <==> Blocked(d, path)
    decreases |path|
  {
    var k := path[0];
    if |path| > 1 {
      assert path[..1] == [k];
      var rest := path[1..];
      var child := if k in d then d[k] else Dict(map[]);
      if !child.Dict? {
        assert Lookup(d, path[..1]) == Some(child);
      } else if k !in d {
        // a missing key starts an empty dictionary, which blocks nothing
        SetPathFails(map[], rest, value);
        forall i | 1 <= i < |rest|
          ensures Lookup(map[], rest[..i]).None?
        {
          EmptyLookup(rest[..i]);
        }
        forall i | 1 <= i < |path|
          ensures Lookup(d, path[..i]).None?
        {
          assert path[..i][0] == k;
        }
      } else {
        SetPathFails(child.entries, rest, value);
        if Blocked(child.entries, rest) {
          var i :| 1 <= i < |rest| && Lookup(child.entries, rest[..i]).Some? && !Lookup(child.entries, rest[..i]).value.Dict?;
          assert path[..i + 1][1..] == rest[..i] && path[..i + 1][0] == k;
        }
        if Blocked(d, path) {
          var i :| 1 <= i < |path| && Lookup(d, path[..i]).Some? && !Lookup(d, path[..i]).value.Dict?;
          assert i > 1;
          assert path[..i][1..] == rest[..i - 1] && path[..i][0] == k;
        }
      }
    }
  }

  /** The updates in order, each on the result of the ones before; `None` once one raises. */
  function ApplyUpdates(config: Value, updates: seq<(string, Value)>): (r: Option<Value>)
    ensures r.Some? ==> r.value.Dict?
    ensures r.Some? ==> config.Dict? && config.entries.Keys <= r.value.entries.Keys
  {
    if |updates| == 0 then (if config.Dict? then Some(config) else None)
    else
      match ApplyUpdates(config, updates[..|updates| - 1])
      case None => None
      case Some(c) =>
        var last := updates[|updates| - 1];
        match SetPath(c.entries, Split(last.0, '.'), last.1)
        case None => None
        case Some(r) => Some(Dict(r))
  }

  /**
   * The update loop of `update_config_file` over the loaded document: `None`
   * when an update raises, in which case nothing is written back.
   */
  method UpdateConfig(config: Value, updates: seq<(string, Value)>) returns (r: Option<Value>)
    ensures r == ApplyUpdates(config, updates)
    ensures r.Some? ==> r.value.Dict?
  {
    if !config.Dict? {
      assert ApplyUpdates(config, updates[..0]) == None;
      NoneStaysNone(config, updates, 0);
      return None;
    }
    var data := config.entries;
    var k := 0;
    while k < |updates|
      invariant 0 <= k <= |updates|
      invariant ApplyUpdates(config, updates[..k]) == Some(Dict(data))
    {
      assert updates[..k + 1][..k] == updates[..k];
      var (key, value) := updates[k];
      var keys := Split(key, '.');
      var next := SetPath(data, keys, value);
      if next.None? {
        NoneStaysNone(config, updates, k + 1);
        return None;
      }
      data := next.value;
      k := k + 1;
    }
    assert updates[..k] == updates;
    return Some(Dict(data));
  }

  lemma {:induction false} NoneStaysNone(config: Value, updates: seq<(string, Value)>, k: nat)
    requires k <= |updates| && ApplyUpdates(config, updates[..k]) == None
    ensures ApplyUpdates(config, updates) == None
    decreases |updates| - k
  {
    if k == |updates| {
      assert updates[..k] == updates;
    } else {
      assert updates[..k + 1][..k] == updates[..k];
      NoneStaysNone(config, updates, k + 1);
    }
  }

  /** A single successful update of a dictionary leaves its value under its dotted key. */
  lemma SingleUpdate(config: Value, key: string, value: Value)
    requires ApplyUpdates(config, [(key, value)]).Some?
    ensures Lookup(ApplyUpdates(config, [(key, value)]).value.entries, Split(key, '.')) == Some(value)
  {
    assert [(key, value)][..0] == [];
    SetPathFound(config.entries, Split(key, '.'), value);
  }

  // ---------------------------------------------------------------------
  // architecture layers
  // ---------------------------------------------------------------------

  /** The automatically coloured layer entry. */
  function ColorEntry(color: string): Value
  {
    Dict(map["color" := Str(color)])
  }

  /** `_assign_colors_to_layers`: one entry per key, the i-th key taking the i-th colour of the palette. */
  function AssignColors(keys: seq<string>, palette: seq<string>): (r: map<string, Value>)
    requires |palette| == |keys|
    ensures r.Keys == set k | k in keys
  {
    if |keys| == 0 then map[]
    else AssignColors(keys[..|keys| - 1], palette[..|keys| - 1])[keys[|keys| - 1] := ColorEntry(palette[|keys| - 1])]
  }

  /** With distinct keys, each key has its own colour. */
  lemma {:induction false} AssignColorsAt(keys: seq<string>, palette: seq<string>, i: nat)
    requires |palette| == |keys| && i < |keys|
    requires forall a, b :: 0 <= a < b < |keys| ==> keys[a] != keys[b]
    ensures AssignColors(keys, palette)[keys[i]] == ColorEntry(palette[i])
  {
    if i < |keys| - 1 {
      assert keys[i] != keys[|keys| - 1];
      AssignColorsAt(keys[..|keys| - 1], palette[..|keys| - 1], i);
    }
  }

  const RootLayerKey: string := "(root)"
  const RootLayerColor: string := "#EAEAEA"

  /** The `(root)` layer entry for a display name. */
  function RootLayer(displayName: string): Value
  {
    Dict(map["name" := Str(displayName + " (root)"), "color" := Str(RootLayerColor)])
  }

  /** The discovered layers, coloured and overridden by the user's layers, with a `(root)` layer when missing. */
  function ArchitectureLayers(discovered: map<string, Value>, user: map<string, Value>, displayName: string)
    : (r: map<string, Value>)
    ensures r.Keys == discovered.Keys + user.Keys + {RootLayerKey}
    ensures forall k :: k in user ==> r[k] == user[k]
    ensures forall k :: k in discovered && k !in user ==> r[k] == discovered[k]
    ensures RootLayerKey !in discovered && RootLayerKey !in user ==> r[RootLayerKey] == RootLayer(displayName)
  {
    var layers := discovered + user;
    if RootLayerKey in layers then layers else layers[RootLayerKey := RootLayer(displayName)]
  }

  /**
   * `root_package_name or config_path.stem.replace("_test", "")`; `None` when
   * a set root package name is not a string, which raises on the path join.
   */
  function RootDisplayName(rootPackageName: Value, configStem: string): (r: Option<string>)
    ensures r.None? <==> IsTruthy(rootPackageName) && !rootPackageName.Str?
    ensures IsTruthy(rootPackageName) && rootPackageName.Str? ==> r == Some(rootPackageName.s)
    ensures !IsTruthy(rootPackageName) && !Contains(configStem, "_test") ==> r == Some(configStem)
    ensures r.Some? ==> |r.value| <= |configStem| || IsTruthy(rootPackageName)
  {
    if IsTruthy(rootPackageName) then (if rootPackageName.Str? then Some(rootPackageName.s) else None)
    else
      ReplaceAllShrinks(configStem, "_test");
      if Contains(configStem, "_test") then Some(ReplaceAll(configStem, "_test", ""))
      else
        ReplaceAllIdentity(configStem, "_test", "");
        Some(ReplaceAll(configStem, "_test", ""))
  }

  /** The configuration with its parser and visualization settings merged over the defaults. */
  function MergeSettings(config: map<string, Value>, userParser: map<string, Value>, userVis: map<string, Value>)
    : (r: map<string, Value>)
    ensures r.Keys == config.Keys + {"parser_settings", "visualization"}
    ensures forall k :: k in config && k != "parser_settings" && k != "visualization" ==> r[k] == config[k]
    ensures r["parser_settings"] == Dict(Merge(DefaultParserConfig(), userParser))
    ensures r["visualization"] == Dict(Merge(DefaultVisConfig(), userVis))
  {
    config["parser_settings" := Dict(Merge(DefaultParserConfig(), userParser))]
          ["visualization" := Dict(Merge(DefaultVisConfig(), userVis))]
  }

  /**
   * `_process_config` on a loaded, non-empty document: merge the parser and
   * visualization settings over the defaults; stop there without a target
   * project path; otherwise colour the discovered layer keys, let the user's
   * layers override them and add the `(root)` layer. `None` when a step
   * raises (a setting of the wrong type).
   */
  function ProcessConfig(config: map<string, Value>, configStem: string, discoveredKeys: seq<string>,
                         palette: seq<string>): (r: Option<map<string, Value>>)
    requires |palette| == |discoveredKeys|
    ensures r.Some? <==>
              Get(config, "parser_settings", Dict(map[])).Dict? && Get(config, "visualization", Dict(map[])).Dict?
              && (IsTruthy(Get(config, "target_project_path", Null)) ==>
                    Get(config, "target_project_path", Null).Str?
                    && RootDisplayName(Get(config, "root_package_name", Null), configStem).Some?
                    && Get(config, "architecture_layers", Dict(map[])).Dict?)
    ensures r.Some? ==>
              forall k :: (k in config && k != "parser_settings" && k != "visualization" && k != "architecture_layers")
                ==> k in r.value && r.value[k] == config[k]
    ensures r.Some? && !IsTruthy(Get(config, "target_project_path", Null)) ==>
              r.value.Keys == config.Keys + {"parser_settings", "visualization"}
    ensures r.Some? && IsTruthy(Get(config, "target_project_path", Null)) ==>
              r.value.Keys == config.Keys + {"parser_settings", "visualization", "architecture_layers"}
    ensures r.Some? ==>
              r.value["parser_settings"] == Dict(Merge(DefaultParserConfig(), Get(config, "parser_settings", Dict(map[])).entries))
              && r.value["visualization"] == Dict(Merge(DefaultVisConfig(), Get(config, "visualization", Dict(map[])).entries))
  {
    var userParser := Get(config, "parser_settings", Dict(map[]));
    var userVis := Get(config, "visualization", Dict(map[]));
    if !userParser.Dict? || !userVis.Dict? then None
    else
      var merged := MergeSettings(config, userParser.entries, userVis.entries);
      var target := Get(config, "target_project_path", Null);
      if !IsTruthy(target) then Some(merged)
      else if !target.Str? then None
      else
        var displayName := RootDisplayName(Get(config, "root_package_name", Null), configStem);
        var userLayers := Get(config, "architecture_layers", Dict(map[]));
        if displayName.None? || !userLayers.Dict? then None
        else
          var discovered := (map k | k in discoveredKeys :: Dict(map[])) + AssignColors(discoveredKeys, palette);
          Some(merged["architecture_layers" := Dict(ArchitectureLayers(discovered, userLayers.entries, displayName.value))])
  }

  /**
   * After processing, the defaults the user leaves alone are present, every
   * user setting holds, and with a target project path every discovered
   * layer, every user layer and `(root)` are present, the user's layers
   * winning.
   */
  lemma ProcessedConfig(config: map<string, Value>, configStem: string, discoveredKeys: seq<string>,
                        palette: seq<string>)
    requires |palette| == |discoveredKeys|
    requires ProcessConfig(config, configStem, discoveredKeys, palette).Some?
    ensures var r := ProcessConfig(config, configStem, discoveredKeys, palette).value;
            "parser_settings" in r && r["parser_settings"].Dict?
            && DefaultParserConfig().Keys <= r["parser_settings"].entries.Keys
            && "visualization" in r && r["visualization"].Dict?
            && DefaultVisConfig().Keys <= r["visualization"].entries.Keys
            && (IsTruthy(Get(config, "target_project_path", Null)) ==>
                  "architecture_layers" in r && r["architecture_layers"].Dict?
                  && RootLayerKey in r["architecture_layers"].entries
                  && (forall k :: k in discoveredKeys ==> k in r["architecture_layers"].entries)
                  && (forall k :: k in Get(config, "architecture_layers", Dict(map[])).entries ==>
                        r["architecture_layers"].entries[k] == config["architecture_layers"].entries[k]))
  {
  }

  /** After processing, every parser and visualization setting the user gives as a plain value holds at its path. */
  lemma ProcessedKeepsUserSettings(config: map<string, Value>, configStem: string, discoveredKeys: seq<string>,
                                   palette: seq<string>, path: seq<string>)
    requires |palette| == |discoveredKeys|
    requires ProcessConfig(config, configStem, discoveredKeys, palette).Some? && |path| >= 1
    ensures var r := ProcessConfig(config, configStem, discoveredKeys, palette).value;
            var user := Get(config, "parser_settings", Dict(map[])).entries;
            Lookup(user, path).Some? && !Lookup(user, path).value.Dict? ==>
              Lookup(r["parser_settings"].entries, path) == Lookup(user, path)
    ensures var r := ProcessConfig(config, configStem, discoveredKeys, palette).value;
            var user := Get(config, "visualization", Dict(map[])).entries;
            Lookup(user, path).Some? && !Lookup(user, path).value.Dict? ==>
              Lookup(r["visualization"].entries, path) == Lookup(user, path)
  {
    var userParser := Get(config, "parser_settings", Dict(map[])).entries;
    var userVis := Get(config, "visualization", Dict(map[])).entries;
    if Lookup(userParser, path).Some? && !Lookup(userParser, path).value.Dict? {
      MergeKeepsUserValues(DefaultParserConfig(), userParser, path);
    }
    if Lookup(userVis, path).Some? && !Lookup(userVis, path).value.Dict? {
      MergeKeepsUserValues(DefaultVisConfig(), userVis, path);
    }
  }
}
