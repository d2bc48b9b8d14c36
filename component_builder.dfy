/**
 * The high-level component interaction graph: function-level call edges are
 * lifted to the classes or public module-level functions that own their
 * endpoints (builders/component_builder.py).
 */
module ComponentBuilder {
  import opened Wrappers
  import opened Strings
  import opened Fqn
  import opened Sorting
  import opened Graphs

  datatype ComponentGraph = ComponentGraph(
    nodes: seq<string>,
    edges: seq<Edge>,
    nodesByModule: map<string, seq<string>>,
    docstrings: map<string, string>)

  /**
   * `_get_component_for_path`: the longest proper dotted prefix that is a
   * component wins; failing that, the path itself if it is a definition.
   */
  function ComponentForPath(fullPath: string, components: set<string>, definitions: set<string>): (r: Option<string>)
    ensures HasProperPrefixIn(fullPath, components) ==>
              r.Some? && IsLongestProperPrefixIn(fullPath, components, r.value)
    ensures !HasProperPrefixIn(fullPath, components) ==>
              r == if fullPath in definitions then Some(fullPath) else None
  {
    var parts := Split(fullPath, '.');
    var k := LongestPrefixIndex(parts, |parts| - 1, components);
    if k > 0 then Some(PrefixOf(parts, k))
    else if fullPath in definitions then Some(fullPath)
    else None
  }

  /** The component edge one call edge lifts to, if it lifts at all. */
  function Lift(e: Edge, components: set<string>, definitions: set<string>): (r: Option<Edge>)
    ensures r.Some? ==> r.value.0 != "" && r.value.1 != "" && r.value.0 != r.value.1
  {
    var a := ComponentForPath(e.0, components, definitions);
    var b := ComponentForPath(e.1, components, definitions);
    if Truthy(a) && Truthy(b) && a.value != b.value then Some((a.value, b.value)) else None
  }

  ghost function LiftedEdges(calls: set<Edge>, components: set<string>, definitions: set<string>): set<Edge>
  {
    set e | e in calls && Lift(e, components, definitions).Some? :: Lift(e, components, definitions).value
  }

  /** A node's module: its mapped module, else the name minus its last segment. */
  function ModuleOf(x: string, definitionToModule: map<string, string>): string
  {
    if x in definitionToModule then definitionToModule[x] else DropLastSegment(x, '.')
  }

  /** The edges the builder keeps, before sorting. */
  ghost function KeptEdges(calls: set<Edge>, components: set<string>, definitionToModule: map<string, string>,
                           showInternalCalls: bool): set<Edge>
  {
    var lifted := LiftedEdges(calls, components, definitionToModule.Keys);
    if showInternalCalls then lifted
    else set e | e in lifted && ModuleOf(e.0, definitionToModule) != ModuleOf(e.1, definitionToModule)
  }

  /** The module `nodes_by_module` files a node under: its mapped module, when non-empty. */
  function MappedModule(n: string, definitionToModule: map<string, string>): Option<string>
  {
    if n in definitionToModule && definitionToModule[n] != "" then Some(definitionToModule[n]) else None
  }

  /**
   * `nodes_by_module`: walking `nodes` in order, each node with a non-empty
   * mapped module is appended to that module's list.
   */
  function GroupByModule(nodes: seq<string>, definitionToModule: map<string, string>): map<string, seq<string>>
  {
    if |nodes| == 0 then map[]
    else
      var g := GroupByModule(nodes[..|nodes| - 1], definitionToModule);
      var n := nodes[|nodes| - 1];
      match MappedModule(n, definitionToModule)
      case Some(m) => g[m := (if m in g then g[m] else []) + [n]]
      case None => g
  }

  /** A node is filed under module `m` exactly when `m` is its non-empty mapped module. */
  lemma {:induction false} GroupByModuleMember(nodes: seq<string>, definitionToModule: map<string, string>,
                                               m: string, n: string)
    ensures (m in GroupByModule(nodes, definitionToModule) && n in GroupByModule(nodes, definitionToModule)[m])
        <==> (n in nodes && MappedModule(n, definitionToModule) == Some(m))
  {
    if |nodes| > 0 {
      var init := nodes[..|nodes| - 1];
      var last := nodes[|nodes| - 1];
      GroupByModuleMember(init, definitionToModule, m, n);
      assert nodes == init + [last];
    }
  }

  /** Every group is non-empty: a module is a key only if some node is filed under it. */
  lemma {:induction false} GroupByModuleKey(nodes: seq<string>, definitionToModule: map<string, string>, m: string)
    requires m in GroupByModule(nodes, definitionToModule)
    ensures |GroupByModule(nodes, definitionToModule)[m]| > 0
  {
    if |nodes| > 0 {
      var init := nodes[..|nodes| - 1];
      var last := nodes[|nodes| - 1];
      if MappedModule(last, definitionToModule) != Some(m) {
        GroupByModuleKey(init, definitionToModule, m);
      }
    }
  }

  /** Each module's list keeps the order of `nodes`, so sorted nodes give sorted lists. */
  lemma {:induction false} GroupByModuleSorted(nodes: seq<string>, definitionToModule: map<string, string>, m: string)
    requires StrictlySorted(nodes, Less)
    requires m in GroupByModule(nodes, definitionToModule)
    ensures StrictlySorted(GroupByModule(nodes, definitionToModule)[m], Less)
  {
    var init := nodes[..|nodes| - 1];
    var last := nodes[|nodes| - 1];
    var g := GroupByModule(init, definitionToModule);
    if MappedModule(last, definitionToModule) == Some(m) {
      var before := if m in g then g[m] else [];
      if m in g {
        GroupByModuleSorted(init, definitionToModule, m);
      }
      forall x | x in before ensures Less(x, last) {
        GroupByModuleMember(init, definitionToModule, m, x);
        var i :| 0 <= i < |init| && init[i] == x;
      }
      var after := before + [last];
      forall i, j | 0 <= i < j < |after| ensures Less(after[i], after[j]) {
        if j == |before| {
          assert after[i] in before;
        }
      }
    } else {
      GroupByModuleSorted(init, definitionToModule, m);
    }
  }

  /** The component edges of all call edges (the first loop of the builder). */
  method LiftEdges(callGraph: set<Edge>, components: set<string>, definitions: set<string>)
    returns (componentEdges: set<Edge>)
    ensures componentEdges == LiftedEdges(callGraph, components, definitions)
  {
    componentEdges := {};
    var rest := callGraph;
    while rest != {}
      invariant rest <= callGraph
      invariant componentEdges == LiftedEdges(callGraph - rest, components, definitions)
      decreases |rest|
    {
      var e :| e in rest;
      var callerComponent := ComponentForPath(e.0, components, definitions);
      var calleeComponent := ComponentForPath(e.1, components, definitions);
      if Truthy(callerComponent) && Truthy(calleeComponent) && callerComponent.value != calleeComponent.value {
        componentEdges := componentEdges + {(callerComponent.value, calleeComponent.value)};
      }
      LiftedStep(callGraph - rest, e, components, definitions);
      assert callGraph - (rest - {e}) == (callGraph - rest) + {e};
      rest := rest - {e};
    }
    assert callGraph - rest == callGraph;
  }

  /** Adding one call edge adds at most its lifted edge. */
  lemma LiftedStep(done: set<Edge>, e: Edge, components: set<string>, definitions: set<string>)
    ensures LiftedEdges(done + {e}, components, definitions)
            == LiftedEdges(done, components, definitions)
               + (if Lift(e, components, definitions).Some? then {Lift(e, components, definitions).value} else {})
  {
  }

  /** Drops the edges whose endpoints lie in the same module. */
  method CrossModuleEdges(edges: set<Edge>, definitionToModule: map<string, string>)
    returns (filteredEdges: set<Edge>)
    ensures filteredEdges == set e | e in edges && ModuleOf(e.0, definitionToModule) != ModuleOf(e.1, definitionToModule)
  {
    filteredEdges := {};
    var todo := edges;
    while todo != {}
      invariant todo <= edges
      invariant filteredEdges == set e | e in edges - todo &&
                  ModuleOf(e.0, definitionToModule) != ModuleOf(e.1, definitionToModule)
      decreases |todo|
    {
      var e :| e in todo;
      var callerModule := ModuleOf(e.0, definitionToModule);
      var calleeModule := ModuleOf(e.1, definitionToModule);
      if callerModule != calleeModule {
        filteredEdges := filteredEdges + {e};
      }
      todo := todo - {e};
    }
    assert edges - todo == edges;
  }

  /** Builds `nodes_by_module` by walking the sorted nodes. */
  method GroupNodes(sortedNodes: seq<string>, definitionToModule: map<string, string>)
    returns (nodesByModule: map<string, seq<string>>)
    ensures nodesByModule == GroupByModule(sortedNodes, definitionToModule)
  {
    nodesByModule := map[];
    var i := 0;
    while i < |sortedNodes|
      invariant 0 <= i <= |sortedNodes|
      invariant nodesByModule == GroupByModule(sortedNodes[..i], definitionToModule)
    {
      var node := sortedNodes[i];
      assert sortedNodes[..i + 1][..i] == sortedNodes[..i];
      if node in definitionToModule && definitionToModule[node] != "" {
        var modulePath := definitionToModule[node];
        var current := if modulePath in nodesByModule then nodesByModule[modulePath] else [];
        nodesByModule := nodesByModule[modulePath := current + [node]];
      }
      i := i + 1;
    }
    assert sortedNodes[..i] == sortedNodes;
  }

  /** `build_component_graph_data`. */
  method BuildComponentGraphData(callGraph: set<Edge>, components: set<string>,
                                 definitionToModule: map<string, string>, docstrings: map<string, string>,
                                 showInternalCalls: bool)
    returns (g: ComponentGraph)
    ensures forall e :: e in g.edges <==> e in KeptEdges(callGraph, components, definitionToModule, showInternalCalls)
    ensures StrictlySorted(g.edges, PairLess)
    ensures forall n :: n in g.nodes <==> n in Endpoints(KeptEdges(callGraph, components, definitionToModule, showInternalCalls))
    ensures StrictlySorted(g.nodes, Less)
    ensures g.nodesByModule == GroupByModule(g.nodes, definitionToModule)
    ensures forall m :: m in g.nodesByModule ==> StrictlySorted(g.nodesByModule[m], Less)
    ensures g.docstrings == docstrings
  {
    var edges := LiftEdges(callGraph, components, definitionToModule.Keys);
    if !showInternalCalls {
      edges := CrossModuleEdges(edges, definitionToModule);
    }
    var nodes := CollectEndpoints(edges);
    StringOrder();
    var sortedNodes := SortSet(nodes, Less);
    var nodesByModule := GroupNodes(sortedNodes, definitionToModule);
    forall m | m in nodesByModule ensures StrictlySorted(nodesByModule[m], Less) {
      GroupByModuleSorted(sortedNodes, definitionToModule, m);
    }
    PairOrder();
    var sortedEdges := SortSet(edges, PairLess);
    g := ComponentGraph(sortedNodes, sortedEdges, nodesByModule, docstrings);
  }

  /** Every kept edge joins two distinct, non-empty components or definitions. */
  lemma KeptEdgesWellFormed(calls: set<Edge>, components: set<string>, definitionToModule: map<string, string>,
                            showInternalCalls: bool, e: Edge)
    requires e in KeptEdges(calls, components, definitionToModule, showInternalCalls)
    ensures e.0 != "" && e.1 != "" && e.0 != e.1
    ensures e.0 in components || e.0 in definitionToModule
    ensures e.1 in components || e.1 in definitionToModule
  {
    var c :| c in calls && Lift(c, components, definitionToModule.Keys) == Some(e);
  }

  /** With internal calls hidden, no kept edge stays inside one module. */
  lemma HiddenInternalCallsCrossModules(calls: set<Edge>, components: set<string>,
                                        definitionToModule: map<string, string>, e: Edge)
    requires e in KeptEdges(calls, components, definitionToModule, false)
    ensures ModuleOf(e.0, definitionToModule) != ModuleOf(e.1, definitionToModule)
  {
  }
}
