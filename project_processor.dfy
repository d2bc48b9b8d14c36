/**
 * The project processor (core/project_processor.py): the checks that end a
 * run early, the choice of the context packages, the selection of the
 * source files whose module path lies in a context package, and the test
 * that starts the interactive wizard. The file system, the terminal and the
 * analyses themselves are inputs or not part of this model.
 */
module ProjectProcessor {
  import opened Wrappers
  import opened Strings
  import opened Sorting
  import opened ConfigLoader
  import InteractiveWizard

  // ---------------------------------------------------------------------
  // early exits
  // ---------------------------------------------------------------------

  /** Why `run` stops before any analysis. */
  datatype Stop = ConfigMissing | PathsUnprepared | NoAnalysisTypes | NoContext | RaisesTypeError

  /** What `run` goes on with: the context packages and the analysis types. */
  datatype Plan = Plan(contextPackages: seq<string>, analysisTypes: seq<Value>)

  /**
   * `_prepare_paths`, in its order: no target path, then joining a target
   * path that is not a string (which raises), then no output directory
   * (`"output"` when absent), then joining an output directory that is not
   * a string (which raises).
   */
  function PreparePaths(config: map<string, Value>): (r: Option<Stop>)
    ensures r.None? <==> Get(config, "target_project_path", Null).Str? && Get(config, "target_project_path", Null).s != ""
                         && Get(config, "output_dir", Str("output")).Str? && Get(config, "output_dir", Str("output")).s != ""
    ensures r.Some? ==> r.value == PathsUnprepared || r.value == RaisesTypeError
    ensures !IsTruthy(Get(config, "target_project_path", Null)) ==> r == Some(PathsUnprepared)
  {
    var target := Get(config, "target_project_path", Null);
    var outputDir := Get(config, "output_dir", Str("output"));
    if !IsTruthy(target) then Some(PathsUnprepared)
    else if !target.Str? then Some(RaisesTypeError)
    else if !IsTruthy(outputDir) then Some(PathsUnprepared)
    else if !outputDir.Str? then Some(RaisesTypeError)
    else None
  }

  /** Every item is a string, as `', '.join` needs. */
  predicate AllStrings(items: seq<Value>)
  {
    forall i :: 0 <= i < |items| ==> items[i].Str?
  }

  /**
   * The checks of `run` before the file scan, in order: a loaded configuration,
   * prepared paths, a non-empty list of analysis types, a non-empty list
   * of context packages, which is the configured `root_package_name` when
   * set and the detected top-level packages otherwise, and analysis types
   * that `', '.join` accepts.
   */
  function Prepare(config: Option<map<string, Value>>, detectedPackages: seq<string>): (r: Result<Plan, Stop>)
    ensures r.Success? <==>
              config.Some? && config.value != map[] && PreparePaths(config.value).None?
              && Get(config.value, "analysis_types", List([])).List? && Get(config.value, "analysis_types", List([])).items != []
              && (var root := Get(config.value, "root_package_name", Null);
                  if IsTruthy(root) then root.Str? else detectedPackages != [])
              && AllStrings(Get(config.value, "analysis_types", List([])).items)
    ensures r.Success? ==> r.value.analysisTypes == Get(config.value, "analysis_types", List([])).items
    ensures r.Success? ==> |r.value.contextPackages| > 0
    ensures r.Success? && IsTruthy(Get(config.value, "root_package_name", Null)) ==>
              r.value.contextPackages == [Get(config.value, "root_package_name", Null).s]
    ensures r.Success? && !IsTruthy(Get(config.value, "root_package_name", Null)) ==>
              r.value.contextPackages == detectedPackages
    ensures r == Failure(RaisesTypeError) && config.Some? && PreparePaths(config.value).None? ==>
              Get(config.value, "analysis_types", List([])).List?
              && (!AllStrings(Get(config.value, "analysis_types", List([])).items)
                  || (IsTruthy(Get(config.value, "root_package_name", Null)) && !Get(config.value, "root_package_name", Null).Str?))
  {
    if config.None? || config.value == map[] then Failure(ConfigMissing)
    else
      var c := config.value;
      var pathsStop := PreparePaths(c);
      if pathsStop.Some? then Failure(pathsStop.value)
      else
        var analysisTypes := Get(c, "analysis_types", List([]));
        if !analysisTypes.List? || analysisTypes.items == [] then Failure(NoAnalysisTypes)
        else
          var root := Get(c, "root_package_name", Null);
          if IsTruthy(root) && !root.Str? then Failure(RaisesTypeError)
          else
            var contextPackages := if IsTruthy(root) then [root.s] else detectedPackages;
            if contextPackages == [] then Failure(NoContext)
            else if !AllStrings(analysisTypes.items) then Failure(RaisesTypeError)
            else Success(Plan(contextPackages, analysisTypes.items))
  }

  // ---------------------------------------------------------------------
  // the source files in context
  // ---------------------------------------------------------------------

  const InitFile: string := "__init__.py"

  /**
   * The module path of a file from the parts of its path relative to the
   * source root: a package's `__init__.py` names the package, any other file
   * its dotted path without `.py`; `None` for no parts, which is skipped.
   */
  function ModulePathOf(parts: seq<string>): (r: Option<string>)
    ensures r.None? <==> parts == []
    ensures |parts| > 0 && parts[|parts| - 1] == InitFile ==> r == Some(Join(parts[..|parts| - 1], '.'))
    ensures |parts| > 0 && parts[|parts| - 1] != InitFile ==> r == Some(RemoveSuffix(Join(parts, '.'), ".py"))
  {
    if parts == [] then None
    else if parts[|parts| - 1] == InitFile then Some(Join(parts[..|parts| - 1], '.'))
    else Some(RemoveSuffix(Join(parts, '.'), ".py"))
  }

  /** The file is kept: its module path starts with some context package. */
  predicate InContext(parts: seq<string>, contextPackages: seq<string>)
  {
    var m := ModulePathOf(parts);
    m.Some? && StartsWithAny(m.value, contextPackages)
  }

  /** A module in the package is kept. */
  lemma PackageModuleKept(pkg: string, sub: seq<string>, contextPackages: seq<string>)
    requires pkg in contextPackages && |sub| >= 1 && sub[|sub| - 1] == InitFile
    ensures InContext([pkg] + sub, contextPackages)
  {
    var parts := [pkg] + sub;
    assert parts[..|parts| - 1] == [pkg] + sub[..|sub| - 1];
    if |sub| > 1 {
      JoinCons(pkg, sub[..|sub| - 1], '.');
    }
    var i :| 0 <= i < |contextPackages| && contextPackages[i] == pkg;
    assert contextPackages[i] <= Join(parts[..|parts| - 1], '.');
  }

  /** The test is a plain prefix test: with `pkg` in context, the sibling package `pkg2` is kept too. */
  lemma PrefixAdmitsSibling()
    ensures InContext(["pkg2", "mod.py"], ["pkg"])
  {
    assert Join(["pkg2", "mod.py"], '.') == "pkg2.mod.py";
    assert RemoveSuffix("pkg2.mod.py", ".py") == "pkg2.mod";
    assert ["pkg"][0] <= "pkg2.mod";
  }

  /** Python's order on paths: their parts compared lexicographically. */
  predicate PathLess(a: seq<string>, b: seq<string>)
  {
    if |a| == 0 then |b| > 0
    else if |b| == 0 then false
    else if a[0] != b[0] then Less(a[0], b[0])
    else PathLess(a[1..], b[1..])
  }

  lemma {:induction false} PathLessIrreflexive(a: seq<string>)
    ensures !PathLess(a, a)
  {
    if |a| > 0 { PathLessIrreflexive(a[1..]); }
  }

  lemma {:induction false} PathLessTransitive(a: seq<string>, b: seq<string>, c: seq<string>)
    requires PathLess(a, b) && PathLess(b, c)
    ensures PathLess(a, c)
  {
    if |a| > 0 && |b| > 0 && |c| > 0 {
      if a[0] == b[0] && b[0] == c[0] {
        PathLessTransitive(a[1..], b[1..], c[1..]);
      } else if a[0] != b[0] && b[0] != c[0] && a[0] != c[0] {
        LessTransitive(a[0], b[0], c[0]);
      } else if a[0] != b[0] && b[0] != c[0] {
        LessTransitive(a[0], b[0], c[0]);
        LessIrreflexive(a[0]);
      }
    }
  }

  lemma {:induction false} PathLessTotal(a: seq<string>, b: seq<string>)
    requires a != b
    ensures PathLess(a, b) || PathLess(b, a)
  {
    if |a| > 0 && |b| > 0 {
      if a[0] == b[0] {
        assert a == [a[0]] + a[1..] && b == [b[0]] + b[1..];
        PathLessTotal(a[1..], b[1..]);
      } else {
        LessTotal(a[0], b[0]);
      }
    }
  }

  lemma PathOrder()
    ensures StrictTotalOrder(PathLess)
  {
    forall x | true ensures !PathLess(x, x) { PathLessIrreflexive(x); }
    forall x, y, z | PathLess(x, y) && PathLess(y, z) ensures PathLess(x, z) { PathLessTransitive(x, y, z); }
    forall x, y | x != y ensures PathLess(x, y) || PathLess(y, x) { PathLessTotal(x, y); }
  }

  /**
   * The file loop of `run` and the sort after it, over the relative paths of
   * the `.py` files under the source root: the files in context, each once,
   * in path order.
   */
  method FilesInContext(files: seq<seq<string>>, contextPackages: seq<string>) returns (pyFiles: seq<seq<string>>)
    ensures StrictlySorted(pyFiles, PathLess)
    ensures forall p :: p in pyFiles <==> p in files && InContext(p, contextPackages)
  {
    var inContext: set<seq<string>> := {};
    var k := 0;
    while k < |files|
      invariant 0 <= k <= |files|
      invariant forall p :: p in inContext <==> p in files[..k] && InContext(p, contextPackages)
    {
      var parts := files[k];
      assert files[..k + 1] == files[..k] + [parts];
      if parts == [] {
        k := k + 1;
        continue;
      }
      var modulePath := if parts[|parts| - 1] == InitFile then Join(parts[..|parts| - 1], '.')
                        else RemoveSuffix(Join(parts, '.'), ".py");
      if StartsWithAny(modulePath, contextPackages) {
        inContext := inContext + {parts};
      }
      k := k + 1;
    }
    assert files[..k] == files;
    PathOrder();
    pyFiles := SortSet(inContext, PathLess);
  }

  // ---------------------------------------------------------------------
  // the wizard test
  // ---------------------------------------------------------------------

  const WarnDefinitions: int := 3000

  /**
   * `_needs_wizard`: more than 3000 definitions, no focus entry points, no
   * exclude filter, no forced analysis, and output to a terminal; `None`
   * when a setting on the way is not a dictionary, which raises.
   */
  function NeedsWizard(definitionCount: int, config: map<string, Value>, isTty: bool): (r: Option<bool>)
    ensures r == Some(true) ==> definitionCount > WarnDefinitions && isTty
                                && !IsTruthy(Get(config, "force_analysis", Bool(false)))
    ensures var vis := Get(config, "visualization", Dict(map[]));
            r.None? <==> (!vis.Dict?
                          || !Get(vis.entries, "component_interaction_graph", Dict(map[])).Dict?
                          || !Get(Get(vis.entries, "component_interaction_graph", Dict(map[])).entries, "focus", Dict(map[])).Dict?
                          || !Get(Get(vis.entries, "component_interaction_graph", Dict(map[])).entries, "filtering", Dict(map[])).Dict?)
    ensures r.Some? ==>
              var comp := Get(Get(config, "visualization", Dict(map[])).entries, "component_interaction_graph", Dict(map[]));
              var focus := Get(comp.entries, "focus", Dict(map[]));
              var filtering := Get(comp.entries, "filtering", Dict(map[]));
              (r.value <==> definitionCount > WarnDefinitions && isTty
                            && !IsTruthy(Get(config, "force_analysis", Bool(false)))
                            && !IsTruthy(Get(focus.entries, "entrypoints", Null))
                            && !IsTruthy(Get(filtering.entries, "exclude_nodes", Null)))
  {
    var vis := Get(config, "visualization", Dict(map[]));
    if !vis.Dict? then None
    else
      var comp := Get(vis.entries, "component_interaction_graph", Dict(map[]));
      if !comp.Dict? then None
      else
        var focus := Get(comp.entries, "focus", Dict(map[]));
        var filtering := Get(comp.entries, "filtering", Dict(map[]));
        if !focus.Dict? || !filtering.Dict? then None
        else
          var hasFocus := IsTruthy(Get(focus.entries, "entrypoints", Null));
          var hasFilter := IsTruthy(Get(filtering.entries, "exclude_nodes", Null));
          var isForced := IsTruthy(Get(config, "force_analysis", Bool(false)));
          Some(definitionCount > WarnDefinitions && !hasFocus && !hasFilter && !isForced && isTty)
  }

  /** With the default visualization settings, the wizard starts exactly for a large project on a terminal. */
  lemma DefaultsNeedWizard(definitionCount: int, isTty: bool)
    ensures NeedsWizard(definitionCount, map["visualization" := Dict(DefaultVisConfig())], isTty)
            == Some(definitionCount > WarnDefinitions && isTty)
  {
    var comp := DefaultVisConfig()["component_interaction_graph"];
    assert comp.entries["focus"].entries["entrypoints"] == List([]);
    assert comp.entries["filtering"].entries["exclude_nodes"] == List([]);
  }

  /**
   * Once the update a wizard choice asks for is written into the
   * configuration, the next run does not start the wizard again.
   */
  lemma ChosenUpdateEndsWizard(config: Value, u: InteractiveWizard.Update, definitionCount: int, isTty: bool)
    requires u.Focus? ==> |u.entrypoints| > 0
    requires u.Filtering? ==> |u.excludeNodes| > 0
    requires ApplyUpdates(config, [(InteractiveWizard.UpdateKey(u), InteractiveWizard.UpdateValue(u))]).Some?
    ensures var r := ApplyUpdates(config, [(InteractiveWizard.UpdateKey(u), InteractiveWizard.UpdateValue(u))]).value;
            NeedsWizard(definitionCount, r.entries, isTty) != Some(true)
  {
    var path := InteractiveWizard.UpdatePath(u);
    UpdateLands(config, u);
    var r := ApplyUpdates(config, [(InteractiveWizard.UpdateKey(u), InteractiveWizard.UpdateValue(u))]).value;
    match u {
      case Focus(eps, _) =>
        GraphSettingEndsWizard(r.entries, "focus", "entrypoints", InteractiveWizard.UpdateValue(u), definitionCount, isTty);
      case Filtering(patterns) =>
        GraphSettingEndsWizard(r.entries, "filtering", "exclude_nodes", InteractiveWizard.UpdateValue(u), definitionCount, isTty);
      case ForceAnalysis =>
        assert Lookup(r.entries, path) == Some(Bool(true));
    }
  }

  /** The update's value lands under its path. */
  lemma UpdateLands(config: Value, u: InteractiveWizard.Update)
    requires ApplyUpdates(config, [(InteractiveWizard.UpdateKey(u), InteractiveWizard.UpdateValue(u))]).Some?
    ensures var r := ApplyUpdates(config, [(InteractiveWizard.UpdateKey(u), InteractiveWizard.UpdateValue(u))]).value;
            Lookup(r.entries, InteractiveWizard.UpdatePath(u)) == Some(InteractiveWizard.UpdateValue(u))
  {
    UpdateKeySplits(u);
    SingleUpdate(config, InteractiveWizard.UpdateKey(u), InteractiveWizard.UpdateValue(u));
  }

  /** The dotted key of an update splits back into its path. */
  lemma UpdateKeySplits(u: InteractiveWizard.Update)
    ensures Split(InteractiveWizard.UpdateKey(u), '.') == InteractiveWizard.UpdatePath(u)
  {
    var path := InteractiveWizard.UpdatePath(u);
    assert forall i :: 0 <= i < |path| ==> '.' !in path[i];
    SplitJoin(path, '.');
  }

  /** A truthy `focus.entrypoints` or `filtering.exclude_nodes` setting turns the wizard off. */
  lemma GraphSettingEndsWizard(config: map<string, Value>, section: string, field: string, value: Value,
                               definitionCount: int, isTty: bool)
    requires (section == "focus" && field == "entrypoints") || (section == "filtering" && field == "exclude_nodes")
    requires Lookup(config, ["visualization", "component_interaction_graph", section]) == Some(value)
    requires value.Dict? && field in value.entries && IsTruthy(value.entries[field])
    ensures NeedsWizard(definitionCount, config, isTty) != Some(true)
  {
    LookupThree(config, "visualization", "component_interaction_graph", section);
  }

  /** A three-key lookup that finds a value passes through two dictionaries. */
  lemma LookupThree(d: map<string, Value>, a: string, b: string, c: string)
    requires Lookup(d, [a, b, c]).Some?
    ensures a in d && d[a].Dict? && b in d[a].entries && d[a].entries[b].Dict? && c in d[a].entries[b].entries
    ensures Lookup(d, [a, b, c]) == Some(d[a].entries[b].entries[c])
  {
    assert [a, b, c][1..] == [b, c];
    assert [b, c][1..] == [c];
    assert a in d && d[a].Dict?;
    assert Lookup(d, [a, b, c]) == Lookup(d[a].entries, [b, c]);
    assert b in d[a].entries && d[a].entries[b].Dict?;
    assert Lookup(d[a].entries, [b, c]) == Lookup(d[a].entries[b].entries, [c]);
  }

}
