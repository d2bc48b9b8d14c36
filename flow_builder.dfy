/** The function-level control-flow graph (builders/flow_builder.py). */
module FlowBuilder {
  import opened Wrappers
  import opened Strings
  import opened Fqn
  import opened Sorting
  import opened Graphs

  datatype FlowGraph = FlowGraph(nodes: seq<string>, edges: seq<Edge>)

  /**
   * `_get_module_path_from_func_path`: the longest proper dotted prefix of
   * the path that is a known module, or `""` when there is none.
   */
  function ModulePathFromFuncPath(fullPath: string, allModules: set<string>): (r: string)
    ensures HasProperPrefixIn(fullPath, allModules) ==> IsLongestProperPrefixIn(fullPath, allModules, r)
    ensures !HasProperPrefixIn(fullPath, allModules) ==> r == ""
  {
    LongestProperPrefixIn(fullPath, allModules).GetOr("")
  }

  /** An edge survives the internal-call filter: both modules known, non-empty and different. */
  predicate CrossesModules(e: Edge, allModules: set<string>)
  {
    var callerModule := ModulePathFromFuncPath(e.0, allModules);
    var calleeModule := ModulePathFromFuncPath(e.1, allModules);
    callerModule != "" && calleeModule != "" && callerModule != calleeModule
  }

  /** The edges `build_flow_graph_data` returns, before sorting. */
  ghost function FlowEdges(callGraph: set<Edge>, showInternalCalls: bool, allModules: Option<set<string>>): set<Edge>
  {
    var modules := allModules.GetOr({});
    if showInternalCalls then callGraph
    else set e | e in callGraph && CrossesModules(e, modules)
  }

  /** The filtering loop of `build_flow_graph_data`: the edges whose endpoints lie in two different known modules. */
  method KeepCrossModule(callGraph: set<Edge>, modules: set<string>) returns (filteredEdges: set<Edge>)
    ensures filteredEdges == set e | e in callGraph && CrossesModules(e, modules)
  {
    filteredEdges := {};
    var todo := callGraph;
    while todo != {}
      invariant todo <= callGraph
      invariant filteredEdges == set e | e in callGraph - todo && CrossesModules(e, modules)
      decreases |todo|
    {
      var e :| e in todo;
      var callerModule := ModulePathFromFuncPath(e.0, modules);
      var calleeModule := ModulePathFromFuncPath(e.1, modules);
      if callerModule != "" && calleeModule != "" && callerModule != calleeModule {
        filteredEdges := filteredEdges + {e};
      }
      todo := todo - {e};
    }
    assert callGraph - todo == callGraph;
  }

  /** `build_flow_graph_data`. */
  method BuildFlowGraphData(callGraph: set<Edge>, showInternalCalls: bool, allModules: Option<set<string>>)
    returns (g: FlowGraph)
    ensures forall e :: e in g.edges <==> e in FlowEdges(callGraph, showInternalCalls, allModules)
    ensures StrictlySorted(g.edges, PairLess)
    ensures forall n :: n in g.nodes <==> n in Endpoints(FlowEdges(callGraph, showInternalCalls, allModules))
    ensures StrictlySorted(g.nodes, Less)
  {
    var modules := if allModules.None? then {} else allModules.value;
    var edges := callGraph;
    if !showInternalCalls {
      edges := KeepCrossModule(callGraph, modules);
    }
    var nodes := CollectEndpoints(edges);
    StringOrder();
    var sortedNodes := SortSet(nodes, Less);
    PairOrder();
    var sortedEdges := SortSet(edges, PairLess);
    g := FlowGraph(sortedNodes, sortedEdges);
  }

  /** With internal calls shown, the edges are the call graph itself. */
  lemma ShowInternalKeepsAll(callGraph: set<Edge>, allModules: Option<set<string>>)
    ensures FlowEdges(callGraph, true, allModules) == callGraph
  {
  }

  /** A kept edge joins two different modules, each the longest known prefix of its endpoint. */
  lemma {:induction false} FilteredEdgeModules(callGraph: set<Edge>, modules: set<string>, e: Edge)
    requires e in FlowEdges(callGraph, false, Some(modules))
    ensures e in callGraph
    ensures exists a, b :: a != b && IsLongestProperPrefixIn(e.0, modules, a) && IsLongestProperPrefixIn(e.1, modules, b)
  {
    var a := ModulePathFromFuncPath(e.0, modules);
    var b := ModulePathFromFuncPath(e.1, modules);
    assert IsLongestProperPrefixIn(e.0, modules, a) && IsLongestProperPrefixIn(e.1, modules, b);
  }

  /** Without a module set, filtering drops every edge. */
  lemma {:induction false} NoModulesNoEdges(callGraph: set<Edge>)
    ensures FlowEdges(callGraph, false, None) == {}
  {
    forall e | e in callGraph ensures !CrossesModules(e, {}) {
      assert !HasProperPrefixIn(e.0, {});
    }
  }
}
