/** The module dependency graph grouped by directory (builders/dependency_builder.py). */
module DependencyBuilder {
  import opened Strings
  import opened Fqn
  import opened Sorting
  import opened Graphs

  datatype DependencyGraph = DependencyGraph(nodesByDir: map<string, seq<string>>, edges: seq<Edge>)

  /** The modules of the project itself: keys that start with the root package name. */
  ghost function InternalModules(allDependencies: map<string, seq<string>>, rootPackage: string): set<string>
  {
    set m | m in allDependencies && rootPackage <= m
  }

  /** `(m, d)` for every `m` of `from` and every `d` of `m`'s list that is in `internal`. */
  ghost function EdgesOf(allDependencies: map<string, seq<string>>, from: set<string>, internal: set<string>): set<Edge>
    requires from <= allDependencies.Keys
  {
    set m, d | m in from && d in allDependencies[m] && d in internal :: (m, d)
  }

  /** `(m, d)` for every internal `m` and every internal `d` that `m` depends on. */
  ghost function DependencyEdges(allDependencies: map<string, seq<string>>, rootPackage: string): set<Edge>
  {
    var internal := InternalModules(allDependencies, rootPackage);
    EdgesOf(allDependencies, internal, internal)
  }

  lemma EdgesOfAdd(allDependencies: map<string, seq<string>>, from: set<string>, m: string, internal: set<string>)
    requires from <= allDependencies.Keys && m in allDependencies
    ensures EdgesOf(allDependencies, from + {m}, internal)
         == EdgesOf(allDependencies, from, internal) + set d | d in allDependencies[m] && d in internal :: (m, d)
  {
  }

  /** The dotted parent of a module, or the root package for a top-level name. */
  function ParentDir(module_: string, rootPackage: string): (r: string)
    ensures r == rootPackage || r + "." <= module_
  {
    var parent := DropLastSegment(module_, '.');
    if parent == "" then rootPackage
    else
      DropLastSegmentIsPrefix(module_);
      parent
  }

  lemma DropLastSegmentIsPrefix(s: string)
    requires DropLastSegment(s, '.') != ""
    ensures DropLastSegment(s, '.') + "." <= s
  {
    var parts := Split(s, '.');
    JoinSplit(s, '.');
    if |parts| == 1 {
      assert false;
    } else {
      PrefixOfJoin(parts, |parts| - 1);
    }
  }

  /** The internal dependencies of one module, in list order. */
  method EdgesFrom(m: string, deps: seq<string>, internal: set<string>) returns (edges: set<Edge>)
    ensures edges == set d | d in deps && d in internal :: (m, d)
  {
    edges := {};
    var i := 0;
    while i < |deps|
      invariant 0 <= i <= |deps|
      invariant edges == set d | d in deps[..i] && d in internal :: (m, d)
    {
      ghost var before, after := deps[..i], deps[..i + 1];
      assert after == before + [deps[i]];
      if deps[i] in internal {
        edges := edges + {(m, deps[i])};
      }
      i := i + 1;
    }
    assert deps[..i] == deps;
  }

  /** No list holds the same name twice. */
  ghost predicate Distinct(s: seq<string>)
  {
    forall i, j :: 0 <= i < j < |s| ==> s[i] != s[j]
  }

  /** The directories that group some node. */
  ghost function Dirs(nodes: set<string>, dirOf: string -> string): set<string>
  {
    set n | n in nodes :: dirOf(n)
  }

  /**
   * `nodesByDir` groups exactly `nodes`: its keys are their directories, each
   * list holds exactly the nodes of its directory, and each only once.
   */
  ghost predicate GroupsByDir(nodesByDir: map<string, seq<string>>, nodes: set<string>, dirOf: string -> string)
  {
    && nodesByDir.Keys == Dirs(nodes, dirOf)
    && (forall dir, n :: dir in nodesByDir ==> (n in nodesByDir[dir] <==> n in nodes && dirOf(n) == dir))
    && (forall dir :: dir in nodesByDir ==> Distinct(nodesByDir[dir]))
  }

  lemma DistinctAppend(s: seq<string>, x: string)
    requires Distinct(s) && x !in s
    ensures Distinct(s + [x])
  {
  }

  /** Appending one more node to its directory's list keeps the grouping exact. */
  lemma GroupsByDirAdd(nodesByDir: map<string, seq<string>>, nodes: set<string>, dirOf: string -> string, x: string)
    requires GroupsByDir(nodesByDir, nodes, dirOf)
    requires x !in nodes
    ensures GroupsByDir(nodesByDir[dirOf(x) := (if dirOf(x) in nodesByDir then nodesByDir[dirOf(x)] else []) + [x]],
                        nodes + {x}, dirOf)
  {
    var parentDir := dirOf(x);
    var current := if parentDir in nodesByDir then nodesByDir[parentDir] else [];
    var updated := nodesByDir[parentDir := current + [x]];
    assert Dirs(nodes + {x}, dirOf) == Dirs(nodes, dirOf) + {parentDir};
    forall dir, n | dir in updated
      ensures n in updated[dir] <==> n in nodes + {x} && dirOf(n) == dir
    {
      if dir == parentDir && n != x {
        if n in nodes && dirOf(n) == dir {
          assert dir in Dirs(nodes, dirOf);
        }
      }
    }
    DistinctAppend(current, x);
  }

  /**
   * `nodes_by_dir`: each node appended to its directory's list. The nodes are
   * a set, so the order within each list is the set's iteration order,
   * modelled here by an arbitrary choice.
   */
  method GroupByDir(nodes: set<string>, dirOf: string -> string) returns (nodesByDir: map<string, seq<string>>)
    ensures GroupsByDir(nodesByDir, nodes, dirOf)
  {
    nodesByDir := map[];
    var todo := nodes;
    while todo != {}
      invariant todo <= nodes
      invariant GroupsByDir(nodesByDir, nodes - todo, dirOf)
      decreases |todo|
    {
      var module_ :| module_ in todo;
      var parentDir := dirOf(module_);
      var current := if parentDir in nodesByDir then nodesByDir[parentDir] else [];
      GroupsByDirAdd(nodesByDir, nodes - todo, dirOf, module_);
      assert nodes - (todo - {module_}) == (nodes - todo) + {module_};
      nodesByDir := nodesByDir[parentDir := current + [module_]];
      todo := todo - {module_};
    }
    assert nodes - todo == nodes;
  }

  /** `build_graph_data`. */
  method BuildGraphData(allDependencies: map<string, seq<string>>, rootPackage: string)
    returns (g: DependencyGraph)
    ensures forall e :: e in g.edges <==> e in DependencyEdges(allDependencies, rootPackage)
    ensures StrictlySorted(g.edges, PairLess)
    ensures GroupsByDir(g.nodesByDir, Endpoints(DependencyEdges(allDependencies, rootPackage)),
                        m => ParentDir(m, rootPackage))
  {
    var internalModules := set m | m in allDependencies && rootPackage <= m;
    var edges: set<Edge> := {};
    var todo := internalModules;
    while todo != {}
      invariant todo <= internalModules
      invariant edges == EdgesOf(allDependencies, internalModules - todo, internalModules)
      decreases |todo|
    {
      var module_ :| module_ in todo;
      var fromModule := EdgesFrom(module_, allDependencies[module_], internalModules);
      EdgesOfAdd(allDependencies, internalModules - todo, module_, internalModules);
      edges := edges + fromModule;
      assert internalModules - (todo - {module_}) == (internalModules - todo) + {module_};
      todo := todo - {module_};
    }
    assert internalModules - todo == internalModules;
    var nodesWithEdges := CollectEndpoints(edges);
    var nodesByDir := GroupByDir(nodesWithEdges, m => ParentDir(m, rootPackage));
    PairOrder();
    var sortedEdges := SortSet(edges, PairLess);
    g := DependencyGraph(nodesByDir, sortedEdges);
  }

  /** A module that lists itself as a dependency keeps its self-edge. */
  lemma SelfDependencyKept(allDependencies: map<string, seq<string>>, rootPackage: string, m: string)
    requires m in allDependencies && rootPackage <= m && m in allDependencies[m]
    ensures (m, m) in DependencyEdges(allDependencies, rootPackage)
  {
    assert m in InternalModules(allDependencies, rootPackage);
  }

  /** Every endpoint of an edge is an internal module: external dependencies never appear. */
  lemma {:induction false} EdgesAreInternal(allDependencies: map<string, seq<string>>, rootPackage: string, n: string)
    requires n in Endpoints(DependencyEdges(allDependencies, rootPackage))
    ensures n in allDependencies && rootPackage <= n
  {
    var edges := DependencyEdges(allDependencies, rootPackage);
    var e :| e in edges && (e.0 == n || e.1 == n);
  }
}
