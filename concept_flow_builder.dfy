/** The concept flow graph (builders/concept_flow_builder.py). */
module ConceptFlowBuilder {
  import opened Wrappers
  import opened Strings
  import opened Sorting
  import opened Graphs

  datatype ConceptFlowGraph = ConceptFlowGraph(nodes: seq<string>, edges: seq<Edge>)

  /**
   * `build_concept_flow_graph_data`, given the analysis result's `edges` entry
   * (`None` when the key is missing).
   */
  method BuildConceptFlowGraphData(edges: Option<seq<Edge>>) returns (g: ConceptFlowGraph)
    ensures forall n :: n in g.nodes <==> n in Endpoints(set e | e in edges.GetOr([]))
    ensures StrictlySorted(g.nodes, Less)
    ensures Sorted(g.edges, PairLe)
    ensures multiset(g.edges) == multiset(edges.GetOr([]))
  {
    var inputEdges := if edges.None? then [] else edges.value;
    var nodes := CollectEndpointsOfList(inputEdges);
    StringOrder();
    var sortedNodes := SortSet(nodes, Less);
    PairPreorder();
    var sortedEdges := SortSeq(inputEdges, PairLe);
    g := ConceptFlowGraph(sortedNodes, sortedEdges);
  }

  /** Sorting a list of edges keeps every edge it had, duplicates included, and adds none. */
  lemma SortedEdgesSameMembers(input: seq<Edge>, output: seq<Edge>, e: Edge)
    requires multiset(output) == multiset(input)
    ensures e in output <==> e in input
  {
    assert e in output <==> e in multiset(output);
    assert e in input <==> e in multiset(input);
  }
}
