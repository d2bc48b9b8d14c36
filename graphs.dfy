/**
 * Directed edges between dotted names, as the builders hand them to the
 * renderers, and the node set every builder derives from its edges.
 */
module Graphs {
  type Edge = (string, string)

  /** Every name that is the source or the target of some edge. */
  ghost function Endpoints(edges: set<Edge>): set<string>
  {
    (set e | e in edges :: e.0) + (set e | e in edges :: e.1)
  }

  /** `for caller, callee in edges: nodes.add(caller); nodes.add(callee)` over a set of edges. */
  method CollectEndpoints(edges: set<Edge>) returns (nodes: set<string>)
    ensures nodes == Endpoints(edges)
  {
    nodes := {};
    var todo := edges;
    while todo != {}
      invariant todo <= edges
      invariant nodes == Endpoints(edges - todo)
      decreases |todo|
    {
      var e :| e in todo;
      assert edges - (todo - {e}) == (edges - todo) + {e};
      nodes := nodes + {e.0, e.1};
      todo := todo - {e};
    }
    assert edges - todo == edges;
  }

  /** The same loop over a list of edges, duplicates allowed. */
  method CollectEndpointsOfList(edges: seq<Edge>) returns (nodes: set<string>)
    ensures nodes == Endpoints(set e | e in edges)
  {
    nodes := {};
    var i := 0;
    while i < |edges|
      invariant 0 <= i <= |edges|
      invariant nodes == Endpoints(set e | e in edges[..i])
    {
      ghost var before, after := edges[..i], edges[..i + 1];
      assert after == before + [edges[i]];
      assert (set e | e in after) == (set e | e in before) + {edges[i]};
      nodes := nodes + {edges[i].0, edges[i].1};
      i := i + 1;
    }
    assert edges[..i] == edges;
  }
}
