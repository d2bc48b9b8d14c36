/**
 * Concept flow (parsers/concept_flow_analyzer.py): starting from the objects
 * of the track groups, follow assignments that hand a known concept on to a
 * new name, round after round, until no round discovers a new holder or ten
 * rounds have run. The libcst tree and its metadata are inputs: each
 * assignment arrives with its value's attribute/call chain and its targets,
 * every node carrying the first fully qualified name the metadata gives it.
 */
module ConceptFlowAnalyzer {
  import opened Wrappers
  import opened Strings

  type Edge = (string, string)

  /** `_normalize_fqn`: cut everything before the first `rootPkg`, then drop every `.<locals>`. */
  function Normalize(name: string, rootPkg: string): (r: string)
    ensures |r| <= |name|
    ensures !Contains(name, rootPkg) ==> r == ReplaceAll(name, ".<locals>", "")
  {
    ReplaceAllShrinks(FromFirst(name, rootPkg), ".<locals>");
    ReplaceAll(FromFirst(name, rootPkg), ".<locals>", "")
  }

  /**
   * A name that holds the root package and no `.<locals>` is normalised to
   * its tail from the first occurrence of the root package on.
   */
  lemma NormalizeKeepsRootTail(name: string, rootPkg: string)
    requires Contains(name, rootPkg)
    requires forall i :: 0 <= i <= |name| ==> !OccursAt(name, ".<locals>", i)
    ensures rootPkg <= Normalize(name, rootPkg)
    ensures Normalize(name, rootPkg) == name[Find(name, rootPkg).value..]
  {
    var k := Find(name, rootPkg).value;
    var tail := name[k..];
    forall i | 0 <= i <= |tail| ensures !OccursAt(tail, ".<locals>", i) {
      assert tail[i..] == name[k + i..];
      assert !OccursAt(name, ".<locals>", k + i);
    }
    ReplaceAllIdentity(tail, ".<locals>", "");
  }


  // ---------------------------------------------------------------------
  // the expression chains and the usage rule
  // ---------------------------------------------------------------------

  /** An expression, as far as the concept lookup walks it. */
  datatype Expr =
    | AttributeExpr(fqn: Option<string>, value: Expr)
    | CallExpr(fqn: Option<string>, func: Expr)
    | NameExpr(fqn: Option<string>)
    | OtherExpr(fqn: Option<string>)

  /** The target of an assignment: its metadata name and whether it is a `Name` or an `Attribute`. */
  datatype Target = Target(fqn: Option<string>, isNameOrAttribute: bool)

  /** The statements the visitor handles: `Assign` with its targets, `AnnAssign` with its optional value. */
  datatype Statement =
    | Assign(value: Expr, targets: seq<Target>)
    | AnnAssign(annValue: Option<Expr>, target: Target)

  /** The names met walking left from `e` through attribute values and call functions. */
  function ChainFqns(e: Expr): seq<Option<string>>
  {
    match e
    case AttributeExpr(fqn, value) => [fqn] + ChainFqns(value)
    case CallExpr(fqn, func) => [fqn] + ChainFqns(func)
    case NameExpr(fqn) => [fqn]
    case OtherExpr(fqn) => [fqn]
  }

  /** The `i`-th name of a chain normalises to a known concept. */
  predicate KnownAt(chain: seq<Option<string>>, i: nat, known: set<string>, rootPkg: string)
    requires i < |chain|
  {
    chain[i].Some? && Normalize(chain[i].value, rootPkg) in known
  }

  /** `_find_concept_in_chain`. */
  function FindConceptInChain(e: Expr, known: set<string>, rootPkg: string): (r: Option<string>)
    ensures r.Some? ==> r.value in known
  {
    if e.fqn.Some? && Normalize(e.fqn.value, rootPkg) in known then Some(Normalize(e.fqn.value, rootPkg))
    else match e
      case AttributeExpr(_, value) => FindConceptInChain(value, known, rootPkg)
      case CallExpr(_, func) => FindConceptInChain(func, known, rootPkg)
      case NameExpr(_) => None
      case OtherExpr(_) => None
  }

  /** Reference search: the first name of a chain that normalises to a known concept. */
  function FirstKnown(c: seq<Option<string>>, known: set<string>, rootPkg: string): Option<string>
  {
    if |c| == 0 then None
    else if KnownAt(c, 0, known, rootPkg) then Some(Normalize(c[0].value, rootPkg))
    else FirstKnown(c[1..], known, rootPkg)
  }

  /** The reference search fails only when no name is known, and otherwise returns the first known one. */
  lemma {:induction false} FirstKnownIsFirst(c: seq<Option<string>>, known: set<string>, rootPkg: string)
    ensures FirstKnown(c, known, rootPkg).None? ==> forall i :: 0 <= i < |c| ==> !KnownAt(c, i, known, rootPkg)
    ensures FirstKnown(c, known, rootPkg).Some? ==>
              exists i :: 0 <= i < |c| && KnownAt(c, i, known, rootPkg)
                          && FirstKnown(c, known, rootPkg).value == Normalize(c[i].value, rootPkg)
                          && forall j :: 0 <= j < i ==> !KnownAt(c, j, known, rootPkg)
  {
    if |c| > 0 && !KnownAt(c, 0, known, rootPkg) {
      var tail := c[1..];
      FirstKnownIsFirst(tail, known, rootPkg);
      assert forall i :: 0 <= i < |tail| ==> tail[i] == c[i + 1];
      var r := FirstKnown(tail, known, rootPkg);
      if r.None? {
        forall i | 0 <= i < |c| ensures !KnownAt(c, i, known, rootPkg) {
          if i > 0 {
            assert !KnownAt(tail, i - 1, known, rootPkg);
          }
        }
      } else {
        var i :| 0 <= i < |tail| && KnownAt(tail, i, known, rootPkg) && r.value == Normalize(tail[i].value, rootPkg)
                 && forall j :: 0 <= j < i ==> !KnownAt(tail, j, known, rootPkg);
        forall j | 0 <= j < i + 1 ensures !KnownAt(c, j, known, rootPkg) {
          if j > 0 {
            assert !KnownAt(tail, j - 1, known, rootPkg);
          }
        }
        assert KnownAt(c, i + 1, known, rootPkg);
      }
    } else if |c| > 0 {
      assert KnownAt(c, 0, known, rootPkg);
    }
  }

  /** The lookup along the expression finds exactly the first known concept of its chain of names. */
  lemma {:induction false} FindConceptIsFirstKnown(e: Expr, known: set<string>, rootPkg: string)
    ensures FindConceptInChain(e, known, rootPkg) == FirstKnown(ChainFqns(e), known, rootPkg)
  {
    var c := ChainFqns(e);
    assert c[0] == e.fqn;
    match e
    case AttributeExpr(_, value) =>
      FindConceptIsFirstKnown(value, known, rootPkg);
      assert c[1..] == ChainFqns(value);
    case CallExpr(_, func) =>
      FindConceptIsFirstKnown(func, known, rootPkg);
      assert c[1..] == ChainFqns(func);
    case NameExpr(_) =>
      assert c[1..] == [];
    case OtherExpr(_) =>
      assert c[1..] == [];
  }

  /** The flow edge one usage adds: from the concept found in the value to the target's name, never a self-loop. */
  function UsageEdges(source: Expr, target: Target, known: set<string>, rootPkg: string): (r: set<Edge>)
    ensures |r| <= 1
    ensures forall e :: e in r ==> e.0 != e.1 && e.0 in known && e.0 != ""
    ensures r != {} <==> Truthy(FindConceptInChain(source, known, rootPkg)) && target.fqn.Some?
                         && FindConceptInChain(source, known, rootPkg).value != Normalize(target.fqn.value, rootPkg)
  {
    var sourceConcept := FindConceptInChain(source, known, rootPkg);
    if !Truthy(sourceConcept) || target.fqn.None? then {}
    else
      var usage := Normalize(target.fqn.value, rootPkg);
      if sourceConcept.value != usage then {(sourceConcept.value, usage)} else {}
  }

  /** The new concept one usage discovers: a `Name` or `Attribute` target not yet known. */
  function UsageDiscoveries(source: Expr, target: Target, known: set<string>, rootPkg: string): (r: set<string>)
    ensures r !! known
    ensures r != {} ==> target.isNameOrAttribute && Truthy(FindConceptInChain(source, known, rootPkg))
  {
    var sourceConcept := FindConceptInChain(source, known, rootPkg);
    if !Truthy(sourceConcept) || target.fqn.None? then {}
    else
      var usage := Normalize(target.fqn.value, rootPkg);
      if target.isNameOrAttribute && usage !in known then {usage} else {}
  }

  /** Union of sets is associative; the loop over an `Assign`'s targets regroups its accumulated edges with it. */
  lemma UnionAssoc<T>(a: set<T>, b: set<T>, c: set<T>)
    ensures a + b + c == a + (b + c)
  {
  }

  /** A usage whose source holds a concept and whose target has a name: its edge and its discovery. */
  lemma UsageFound(source: Expr, target: Target, known: set<string>, rootPkg: string)
    requires Truthy(FindConceptInChain(source, known, rootPkg)) && target.fqn.Some?
    ensures var c := FindConceptInChain(source, known, rootPkg).value;
            var usage := Normalize(target.fqn.value, rootPkg);
            && UsageEdges(source, target, known, rootPkg) == (if c != usage then {(c, usage)} else {})
            && UsageDiscoveries(source, target, known, rootPkg)
               == (if target.isNameOrAttribute && usage !in known then {usage} else {})
  {
  }

  function TargetsEdges(value: Expr, targets: seq<Target>, known: set<string>, rootPkg: string): (r: set<Edge>)
    ensures forall e :: e in r ==> e.0 != e.1 && e.0 in known
  {
    if |targets| == 0 then {}
    else TargetsEdges(value, targets[..|targets| - 1], known, rootPkg)
         + UsageEdges(value, targets[|targets| - 1], known, rootPkg)
  }

  function TargetsDiscoveries(value: Expr, targets: seq<Target>, known: set<string>, rootPkg: string): (r: set<string>)
    ensures r !! known
  {
    if |targets| == 0 then {}
    else TargetsDiscoveries(value, targets[..|targets| - 1], known, rootPkg)
         + UsageDiscoveries(value, targets[|targets| - 1], known, rootPkg)
  }

  /** The first `k + 1` targets: those of the first `k`, and the usage by target `k`. */
  lemma TargetsStep(value: Expr, targets: seq<Target>, k: nat, known: set<string>, rootPkg: string)
    requires k < |targets|
    ensures TargetsEdges(value, targets[..k + 1], known, rootPkg)
            == TargetsEdges(value, targets[..k], known, rootPkg) + UsageEdges(value, targets[k], known, rootPkg)
    ensures TargetsDiscoveries(value, targets[..k + 1], known, rootPkg)
            == TargetsDiscoveries(value, targets[..k], known, rootPkg) + UsageDiscoveries(value, targets[k], known, rootPkg)
  {
    assert targets[..k + 1][..k] == targets[..k];
  }

  function StatementEdges(s: Statement, known: set<string>, rootPkg: string): (r: set<Edge>)
    ensures forall e :: e in r ==> e.0 != e.1 && e.0 in known
  {
    match s
    case Assign(value, targets) => TargetsEdges(value, targets, known, rootPkg)
    case AnnAssign(value, target) => if value.Some? then UsageEdges(value.value, target, known, rootPkg) else {}
  }

  function StatementDiscoveries(s: Statement, known: set<string>, rootPkg: string): (r: set<string>)
    ensures r !! known
  {
    match s
    case Assign(value, targets) => TargetsDiscoveries(value, targets, known, rootPkg)
    case AnnAssign(value, target) => if value.Some? then UsageDiscoveries(value.value, target, known, rootPkg) else {}
  }

  function FileEdges(stmts: seq<Statement>, known: set<string>, rootPkg: string): (r: set<Edge>)
    ensures forall e :: e in r ==> e.0 != e.1 && e.0 in known
  {
    if |stmts| == 0 then {}
    else FileEdges(stmts[..|stmts| - 1], known, rootPkg) + StatementEdges(stmts[|stmts| - 1], known, rootPkg)
  }

  function FileDiscoveries(stmts: seq<Statement>, known: set<string>, rootPkg: string): (r: set<string>)
    ensures r !! known
  {
    if |stmts| == 0 then {}
    else FileDiscoveries(stmts[..|stmts| - 1], known, rootPkg) + StatementDiscoveries(stmts[|stmts| - 1], known, rootPkg)
  }

  /** One round over all files; `None` stands for a file whose analysis raised and is skipped. */
  function RoundEdges(files: seq<Option<seq<Statement>>>, known: set<string>, rootPkg: string): (r: set<Edge>)
    ensures forall e :: e in r ==> e.0 != e.1 && e.0 in known
  {
    if |files| == 0 then {}
    else
      RoundEdges(files[..|files| - 1], known, rootPkg)
      + (if files[|files| - 1].Some? then FileEdges(files[|files| - 1].value, known, rootPkg) else {})
  }

  function RoundDiscoveries(files: seq<Option<seq<Statement>>>, known: set<string>, rootPkg: string): (r: set<string>)
    ensures r !! known
  {
    if |files| == 0 then {}
    else
      RoundDiscoveries(files[..|files| - 1], known, rootPkg)
      + (if files[|files| - 1].Some? then FileDiscoveries(files[|files| - 1].value, known, rootPkg) else {})
  }

  // ---------------------------------------------------------------------
  // the visitor
  // ---------------------------------------------------------------------

  /** `ConceptVisitor`: the known concepts of the round, and the edges and concepts found in one file. */
  class ConceptVisitor {
    const knownConcepts: set<string>
    const rootPkg: string
    var flowEdges: set<Edge>
    var newlyDiscoveredConcepts: set<string>

    constructor (knownConcepts: set<string>, rootPkg: string)
      ensures this.knownConcepts == knownConcepts && this.rootPkg == rootPkg
      ensures flowEdges == {} && newlyDiscoveredConcepts == {}
    {
      this.knownConcepts := knownConcepts;
      this.rootPkg := rootPkg;
      flowEdges := {};
      newlyDiscoveredConcepts := {};
    }

    /** `_process_usage`. */
    method ProcessUsage(sourceNode: Expr, usageContextNode: Target)
      modifies this
      ensures flowEdges == old(flowEdges) + UsageEdges(sourceNode, usageContextNode, knownConcepts, rootPkg)
      ensures newlyDiscoveredConcepts
              == old(newlyDiscoveredConcepts) + UsageDiscoveries(sourceNode, usageContextNode, knownConcepts, rootPkg)
    {
      var sourceConceptFqn := FindConceptInChain(sourceNode, knownConcepts, rootPkg);
      if !Truthy(sourceConceptFqn) || usageContextNode.fqn.None? {
        return;
      }
      var usageFqn := Normalize(usageContextNode.fqn.value, rootPkg);
      UsageFound(sourceNode, usageContextNode, knownConcepts, rootPkg);
      RecordUsage(sourceConceptFqn.value, usageFqn, usageContextNode.isNameOrAttribute);
    }

    /** The end of `_process_usage`: the edge unless it is a self-loop, and the target's name when it is new. */
    method RecordUsage(sourceConcept: string, usageFqn: string, isNameOrAttribute: bool)
      modifies this
      ensures flowEdges == old(flowEdges) + (if sourceConcept != usageFqn then {(sourceConcept, usageFqn)} else {})
      ensures newlyDiscoveredConcepts
              == old(newlyDiscoveredConcepts) + (if isNameOrAttribute && usageFqn !in knownConcepts then {usageFqn} else {})
    {
      if sourceConcept != usageFqn && (sourceConcept, usageFqn) !in flowEdges {
        flowEdges := flowEdges + {(sourceConcept, usageFqn)};
      }
      if isNameOrAttribute && usageFqn !in knownConcepts {
        newlyDiscoveredConcepts := newlyDiscoveredConcepts + {usageFqn};
      }
    }

    /** `visit_Assign`: the assigned value's usage by each target, in order. */
    method VisitTargets(value: Expr, targets: seq<Target>)
      modifies this
      ensures flowEdges == old(flowEdges) + TargetsEdges(value, targets, knownConcepts, rootPkg)
      ensures newlyDiscoveredConcepts == old(newlyDiscoveredConcepts) + TargetsDiscoveries(value, targets, knownConcepts, rootPkg)
    {
      ghost var startEdges, startFound := flowEdges, newlyDiscoveredConcepts;
      var k := 0;
      while k < |targets|
        invariant 0 <= k <= |targets|
        invariant flowEdges == startEdges + TargetsEdges(value, targets[..k], knownConcepts, rootPkg)
        invariant newlyDiscoveredConcepts == startFound + TargetsDiscoveries(value, targets[..k], knownConcepts, rootPkg)
      {
        TargetsStep(value, targets, k, knownConcepts, rootPkg);
        UnionAssoc(startEdges, TargetsEdges(value, targets[..k], knownConcepts, rootPkg),
                   UsageEdges(value, targets[k], knownConcepts, rootPkg));
        UnionAssoc(startFound, TargetsDiscoveries(value, targets[..k], knownConcepts, rootPkg),
                   UsageDiscoveries(value, targets[k], knownConcepts, rootPkg));
        ProcessUsage(value, targets[k]);
        k := k + 1;
      }
      assert targets[..k] == targets;
    }

    /** `visit_Assign` and `visit_AnnAssign`. */
    method VisitStatement(s: Statement)
      modifies this
      ensures flowEdges == old(flowEdges) + StatementEdges(s, knownConcepts, rootPkg)
      ensures newlyDiscoveredConcepts == old(newlyDiscoveredConcepts) + StatementDiscoveries(s, knownConcepts, rootPkg)
    {
      match s {
        case Assign(value, targets) =>
          VisitTargets(value, targets);
        case AnnAssign(value, target) =>
          if value.Some? {
            ProcessUsage(value.value, target);
          }
      }
    }

    /** `wrapper.module.visit(visitor)`: every handled statement of the file, in order. */
    method VisitFile(stmts: seq<Statement>)
      modifies this
      ensures flowEdges == old(flowEdges) + FileEdges(stmts, knownConcepts, rootPkg)
      ensures newlyDiscoveredConcepts == old(newlyDiscoveredConcepts) + FileDiscoveries(stmts, knownConcepts, rootPkg)
    {
      var k := 0;
      while k < |stmts|
        invariant 0 <= k <= |stmts|
        invariant flowEdges == old(flowEdges) + FileEdges(stmts[..k], knownConcepts, rootPkg)
        invariant newlyDiscoveredConcepts == old(newlyDiscoveredConcepts) + FileDiscoveries(stmts[..k], knownConcepts, rootPkg)
      {
        assert stmts[..k + 1][..k] == stmts[..k];
        VisitStatement(stmts[k]);
        k := k + 1;
      }
      assert stmts[..k] == stmts;
    }
  }

  // ---------------------------------------------------------------------
  // the fixpoint
  // ---------------------------------------------------------------------

  /** The edges gathered, the concepts known at the end, and the rounds run. */
  datatype FlowState = FlowState(edges: set<Edge>, known: set<string>, rounds: nat)

  /**
   * The rounds of `analyze_concept_flow` with `remaining` rounds left: a round
   * that discovers nothing outside `known` is the last one.
   */
  function Flow(files: seq<Option<seq<Statement>>>, known: set<string>, rootPkg: string, remaining: nat): (r: FlowState)
    ensures known <= r.known
    ensures r.rounds <= remaining
    ensures forall e :: e in r.edges ==> e.0 != e.1 && e.0 in r.known
    decreases remaining
  {
    if remaining == 0 then FlowState({}, known, 0)
    else
      var edges := RoundEdges(files, known, rootPkg);
      var newConcepts := RoundDiscoveries(files, known, rootPkg) - known;
      if newConcepts == {} then FlowState(edges, known, 1)
      else
        var rest := Flow(files, known + newConcepts, rootPkg, remaining - 1);
        FlowState(edges + rest.edges, rest.known, rest.rounds + 1)
  }

  /** When the rounds stop before the limit, the final concepts are closed: one more round would discover nothing. */
  lemma {:induction false} FlowStopsAtFixpoint(files: seq<Option<seq<Statement>>>, known: set<string>, rootPkg: string,
                                               remaining: nat)
    requires Flow(files, known, rootPkg, remaining).rounds < remaining
    ensures var r := Flow(files, known, rootPkg, remaining);
            RoundDiscoveries(files, r.known, rootPkg) == {}
    decreases remaining
  {
    var newConcepts := RoundDiscoveries(files, known, rootPkg) - known;
    if newConcepts != {} {
      FlowStopsAtFixpoint(files, known + newConcepts, rootPkg, remaining - 1);
    }
  }

  /** The known concepts grow by exactly the concepts discovered: every final concept is initial or a target of some round. */
  lemma {:induction false} FlowKnownFromDiscoveries(files: seq<Option<seq<Statement>>>, known: set<string>,
                                                    rootPkg: string, remaining: nat, c: string)
    requires c in Flow(files, known, rootPkg, remaining).known
    ensures c in known || exists k :: k >= known && k <= Flow(files, known, rootPkg, remaining).known
                                      && c in RoundDiscoveries(files, k, rootPkg)
    decreases remaining
  {
    if remaining > 0 {
      var newConcepts := RoundDiscoveries(files, known, rootPkg) - known;
      if newConcepts != {} && c !in known {
        if c in newConcepts {
          assert known <= known && known <= Flow(files, known, rootPkg, remaining).known;
        } else {
          FlowKnownFromDiscoveries(files, known + newConcepts, rootPkg, remaining - 1, c);
        }
      }
    }
  }

  /** The concepts the track groups start from. */
  function InitialConcepts(fromObjects: seq<string>, rootPkg: string): (r: set<string>)
    ensures forall i :: 0 <= i < |fromObjects| ==> Normalize(fromObjects[i], rootPkg) in r
    ensures forall c :: c in r ==> exists i :: 0 <= i < |fromObjects| && c == Normalize(fromObjects[i], rootPkg)
  {
    set i | 0 <= i < |fromObjects| :: Normalize(fromObjects[i], rootPkg)
  }

  /** One round of `Flow`: its edges, then, when it discovered something, the rounds after it. */
  lemma FlowUnfold(files: seq<Option<seq<Statement>>>, known: set<string>, rootPkg: string, remaining: nat)
    requires remaining > 0
    ensures var found := RoundDiscoveries(files, known, rootPkg) - known;
            var r := Flow(files, known, rootPkg, remaining);
            && (found == {} ==> r.edges == RoundEdges(files, known, rootPkg) && r.known == known)
            && (found != {} ==> r.edges == RoundEdges(files, known, rootPkg) + Flow(files, known + found, rootPkg, remaining - 1).edges
                                && r.known == Flow(files, known + found, rootPkg, remaining - 1).known)
  {
  }

  /** The visitors of one round, a fresh one per file, their results unioned. */
  method RunRound(files: seq<Option<seq<Statement>>>, known: set<string>, rootPkg: string)
    returns (edges: set<Edge>, discovered: set<string>)
    ensures edges == RoundEdges(files, known, rootPkg)
    ensures discovered == RoundDiscoveries(files, known, rootPkg)
  {
    edges, discovered := {}, {};
    var k := 0;
    while k < |files|
      invariant 0 <= k <= |files|
      invariant edges == RoundEdges(files[..k], known, rootPkg)
      invariant discovered == RoundDiscoveries(files[..k], known, rootPkg)
    {
      assert files[..k + 1][..k] == files[..k];
      if files[k].Some? {
        var visitor := new ConceptVisitor(known, rootPkg);
        visitor.VisitFile(files[k].value);
        edges := edges + visitor.flowEdges;
        discovered := discovered + visitor.newlyDiscoveredConcepts;
      }
      k := k + 1;
    }
    assert files[..k] == files;
  }

  /** A list holding each member of a set once, in the set's iteration order. */
  method ListOf(s: set<Edge>) returns (r: seq<Edge>)
    ensures forall e :: e in r <==> e in s
    ensures |r| == |s|
  {
    r := [];
    var rest := s;
    while rest != {}
      invariant rest <= s
      invariant forall e :: e in r <==> e in s - rest
      invariant |r| == |s - rest|
      decreases |rest|
    {
      var e :| e in rest;
      assert s - (rest - {e}) == (s - rest) + {e};
      r := r + [e];
      rest := rest - {e};
    }
    assert s - rest == s;
  }

  datatype ConceptFlow = ConceptFlow(nodes: seq<string>, edges: seq<Edge>)

  /** The rounds allowed before the analysis gives up. */
  const MaxIterations: nat := 10

  /**
   * `analyze_concept_flow`: `None` for the `{}` returned when the repository
   * manager fails; otherwise no nodes and the edges of every round.
   */
  method AnalyzeConceptFlow(rootPkg: string, files: seq<Option<seq<Statement>>>, fromObjects: seq<string>,
                            repoManagerOk: bool)
    returns (result: Option<ConceptFlow>)
    ensures !repoManagerOk ==> result.None?
    ensures repoManagerOk ==> result.Some? && result.value.nodes == []
    ensures repoManagerOk ==>
              forall e :: e in result.value.edges
                          <==> e in Flow(files, InitialConcepts(fromObjects, rootPkg), rootPkg, MaxIterations).edges
    ensures repoManagerOk ==>
              |result.value.edges| == |Flow(files, InitialConcepts(fromObjects, rootPkg), rootPkg, MaxIterations).edges|
  {
    if !repoManagerOk {
      return None;
    }
    var allEdges: set<Edge> := {};
    var knownConcepts := set i | 0 <= i < |fromObjects| :: Normalize(fromObjects[i], rootPkg);
    ghost var total := Flow(files, knownConcepts, rootPkg, MaxIterations);
    var iteration := 0;
    while iteration < MaxIterations
      invariant 0 <= iteration <= MaxIterations
      invariant total.edges == allEdges + Flow(files, knownConcepts, rootPkg, MaxIterations - iteration).edges
      invariant total.known == Flow(files, knownConcepts, rootPkg, MaxIterations - iteration).known
    {
      FlowUnfold(files, knownConcepts, rootPkg, MaxIterations - iteration);
      iteration := iteration + 1;
      var roundEdges, newlyDiscoveredThisRound := RunRound(files, knownConcepts, rootPkg);
      allEdges := allEdges + roundEdges;
      var newConceptsToAdd := newlyDiscoveredThisRound - knownConcepts;
      if newConceptsToAdd == {} {
        break;
      }
      knownConcepts := knownConcepts + newConceptsToAdd;
    }
    var edges := ListOf(allEdges);
    return Some(ConceptFlow([], edges));
  }
}
