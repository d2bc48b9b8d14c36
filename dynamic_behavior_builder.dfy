/** The dynamic behaviour graph (builders/dynamic_behavior_builder.py). */
module DynamicBehaviorBuilder {
  import opened Wrappers
  import opened Sorting
  import opened DynamicBehaviorAnalyzer

  datatype DynamicBehaviorGraph = DynamicBehaviorGraph(nodes: map<string, Finding>, edges: seq<Link>)

  /** The infos the node loop writes, in order: each link's producer, then its consumer. */
  function Writes(links: seq<Link>): (r: seq<Finding>)
    ensures |r| == 2 * |links|
  {
    if |links| == 0 then []
    else Writes(links[..|links| - 1]) + [links[|links| - 1].producerInfo, links[|links| - 1].consumerInfo]
  }

  /** `nodes[info["caller_fqn"]] = info` for each write in turn. */
  function Assign(writes: seq<Finding>): map<string, Finding>
  {
    if |writes| == 0 then map[]
    else
      var w := writes[|writes| - 1];
      Assign(writes[..|writes| - 1])[w.callerFqn := w]
  }

  /** `sorted(edges, key=lambda x: (x["source"], x["target"]))` compares links by this key. */
  predicate LinkLe(a: Link, b: Link)
  {
    PairLe((a.source, a.target), (b.source, b.target))
  }

  lemma LinkOrder()
    ensures TotalPreorder(LinkLe)
  {
    PairPreorder();
    forall a: Link, b: Link ensures LinkLe(a, b) || LinkLe(b, a) {
      assert PairLe((a.source, a.target), (b.source, b.target)) || PairLe((b.source, b.target), (a.source, a.target));
    }
    forall a: Link, b: Link, c: Link | LinkLe(a, b) && LinkLe(b, c) ensures LinkLe(a, c) {
      assert PairLe((a.source, a.target), (b.source, b.target)) && PairLe((b.source, b.target), (c.source, c.target));
    }
  }

  /** `build_dynamic_behavior_graph_data`, given the `links` entry (`None` when missing). */
  method BuildDynamicBehaviorGraphData(links: Option<seq<Link>>) returns (g: DynamicBehaviorGraph)
    ensures g.nodes == Assign(Writes(links.GetOr([])))
    ensures Sorted(g.edges, LinkLe)
    ensures multiset(g.edges) == multiset(links.GetOr([]))
  {
    var input := if links.None? then [] else links.value;
    var nodes: map<string, Finding> := map[];
    var i := 0;
    while i < |input|
      invariant 0 <= i <= |input|
      invariant nodes == Assign(Writes(input[..i]))
    {
      var link := input[i];
      assert input[..i + 1][..i] == input[..i];
      var producerInfo := link.producerInfo;
      var consumerInfo := link.consumerInfo;
      ghost var before := Writes(input[..i]);
      assert Writes(input[..i + 1]) == before + [producerInfo, consumerInfo];
      assert (before + [producerInfo, consumerInfo])[..|before| + 1] == before + [producerInfo];
      assert (before + [producerInfo])[..|before|] == before;
      nodes := nodes[producerInfo.callerFqn := producerInfo];
      nodes := nodes[consumerInfo.callerFqn := consumerInfo];
      i := i + 1;
    }
    assert input[..i] == input;
    LinkOrder();
    var sortedEdges := SortSeq(input, LinkLe);
    g := DynamicBehaviorGraph(nodes, sortedEdges);
  }

  /** Every write's name is a node, and every node was written. */
  lemma {:induction false} AssignKeys(writes: seq<Finding>, k: string)
    ensures k in Assign(writes) <==> exists i :: 0 <= i < |writes| && writes[i].callerFqn == k
  {
    if |writes| > 0 {
      var init := writes[..|writes| - 1];
      AssignKeys(init, k);
      if exists i :: 0 <= i < |writes| && writes[i].callerFqn == k {
        var i :| 0 <= i < |writes| && writes[i].callerFqn == k;
        if i < |init| { assert init[i] == writes[i]; }
      }
      if exists i :: 0 <= i < |init| && init[i].callerFqn == k {
        var i :| 0 <= i < |init| && init[i].callerFqn == k;
        assert writes[i] == init[i];
      }
    }
  }

  /** For a name written several times, the last write wins. */
  lemma {:induction false} AssignLastWriteWins(writes: seq<Finding>, i: nat)
    requires i < |writes|
    requires forall j :: i < j < |writes| ==> writes[j].callerFqn != writes[i].callerFqn
    ensures writes[i].callerFqn in Assign(writes)
    ensures Assign(writes)[writes[i].callerFqn] == writes[i]
  {
    if i < |writes| - 1 {
      var init := writes[..|writes| - 1];
      assert init[i] == writes[i];
      AssignLastWriteWins(init, i);
    }
  }

  /** The nodes are exactly the producer and consumer callers of the links. */
  lemma {:induction false} NodesAreCallers(links: seq<Link>, k: string)
    ensures k in Assign(Writes(links)) <==>
              exists l :: l in links && (l.producerInfo.callerFqn == k || l.consumerInfo.callerFqn == k)
  {
    var writes := Writes(links);
    AssignKeys(writes, k);
    WritesMembers(links);
    if exists l :: l in links && (l.producerInfo.callerFqn == k || l.consumerInfo.callerFqn == k) {
      var l :| l in links && (l.producerInfo.callerFqn == k || l.consumerInfo.callerFqn == k);
      var f := if l.producerInfo.callerFqn == k then l.producerInfo else l.consumerInfo;
      assert f in writes;
      var i :| 0 <= i < |writes| && writes[i] == f;
    }
    if k in Assign(writes) {
      var i :| 0 <= i < |writes| && writes[i].callerFqn == k;
      assert writes[i] in writes;
    }
  }

  lemma {:induction false} WritesMembers(links: seq<Link>)
    ensures forall f :: f in Writes(links) <==> exists l :: l in links && (f == l.producerInfo || f == l.consumerInfo)
  {
    if |links| > 0 {
      var init := links[..|links| - 1];
      WritesMembers(init);
      assert links == init + [links[|links| - 1]];
      assert forall l :: l in links <==> l in init || l == links[|links| - 1];
    }
  }

  /** Within one link, the consumer's info is written after the producer's, so it wins for a shared name. */
  lemma {:induction false} ConsumerWrittenAfterProducer(links: seq<Link>, n: nat)
    requires n < |links|
    ensures Writes(links)[2 * n] == links[n].producerInfo
    ensures Writes(links)[2 * n + 1] == links[n].consumerInfo
  {
    if n < |links| - 1 {
      var init := links[..|links| - 1];
      ConsumerWrittenAfterProducer(init, n);
      assert init[n] == links[n];
    }
  }
}
