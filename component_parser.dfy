/**
 * The component parser (parsers/component_parser.py): a visitor over the
 * syntax tree keeps a stack of enclosing scope names, records definitions,
 * classes as components, imports and calls with the dotted path of their
 * enclosing scope; the analysis then classifies each module's definitions
 * and turns the calls jedi resolves into call-graph edges. The tree and
 * jedi's answers are inputs.
 */
module ComponentParser {
  import opened Wrappers
  import opened Strings
  import opened Sorting

  type Edge = (string, string)

  /** A definition jedi infers for a call: its full name (`None` when it has none) and its type. */
  datatype JediDefinition = JediDefinition(fullName: Option<string>, kind: string)

  datatype ImportNode = PlainImport(names: seq<string>) | FromImport(fromModule: Option<string>, names: seq<string>)

  /**
   * The nodes the visitor reacts to. A call carries what jedi infers for it,
   * `None` when the inference raises.
   */
  datatype Node =
    | FunctionDef(name: string, body: seq<Node>)
    | ClassDef(name: string, body: seq<Node>)
    | CallNode(inferred: Option<seq<JediDefinition>>, children: seq<Node>)
    | ImportStmt(imp: ImportNode)
    | OtherNode(children: seq<Node>)

  /** A recorded call: the dotted path of its enclosing scope, and the call. */
  datatype CallRecord = CallRecord(callerPath: string, inferred: Option<seq<JediDefinition>>)

  /** What visiting some nodes records. */
  datatype Visited = Visited(calls: seq<CallRecord>, definitions: set<string>, imports: seq<ImportNode>,
                             components: set<string>)

  function Then(a: Visited, b: Visited): Visited
  {
    Visited(a.calls + b.calls, a.definitions + b.definitions, a.imports + b.imports, a.components + b.components)
  }

  /** `from __future__ import ...`, which the visitor does not record. */
  predicate IsFutureImport(imp: ImportNode)
  {
    imp.FromImport? && imp.fromModule == Some("__future__")
  }

  /** What visiting `n` with the scope stack `scope` records. */
  function VisitNode(n: Node, scope: seq<string>): (r: Visited)
    ensures n.ClassDef? ==> Join(scope + [n.name], '.') in r.definitions && Join(scope + [n.name], '.') in r.components
    ensures n.FunctionDef? ==> Join(scope + [n.name], '.') in r.definitions
    ensures n.ImportStmt? ==> r.calls == [] && r.definitions == {} && r.components == {}
    ensures n.CallNode? ==> |r.calls| > 0 && r.calls[0] == CallRecord(Join(scope, '.'), n.inferred)
    decreases n
  {
    match n
    case FunctionDef(name, body) =>
      var inner := VisitNodes(body, scope + [name]);
      Visited(inner.calls, {Join(scope + [name], '.')} + inner.definitions, inner.imports, inner.components)
    case ClassDef(name, body) =>
      var inner := VisitNodes(body, scope + [name]);
      Visited(inner.calls, {Join(scope + [name], '.')} + inner.definitions, inner.imports,
              {Join(scope + [name], '.')} + inner.components)
    case CallNode(inferred, children) =>
      var inner := VisitNodes(children, scope);
      Visited([CallRecord(Join(scope, '.'), inferred)] + inner.calls, inner.definitions, inner.imports, inner.components)
    case ImportStmt(imp) =>
      Visited([], {}, if IsFutureImport(imp) then [] else [imp], {})
    case OtherNode(children) =>
      VisitNodes(children, scope)
  }

  function VisitNodes(ns: seq<Node>, scope: seq<string>): Visited
    decreases ns
  {
    if |ns| == 0 then Visited([], {}, [], {})
    else Then(VisitNodes(ns[..|ns| - 1], scope), VisitNode(ns[|ns| - 1], scope))
  }

  /** `CodeVisitor`: the scope stack and what has been recorded so far. */
  class CodeVisitor {
    const modulePath: string
    var currentScope: seq<string>
    var calls: seq<CallRecord>
    var definitions: set<string>
    var imports: seq<ImportNode>
    var components: set<string>

    constructor (modulePath: string)
      ensures this.modulePath == modulePath && currentScope == [modulePath]
      ensures calls == [] && definitions == {} && imports == [] && components == {}
    {
      this.modulePath := modulePath;
      currentScope := [modulePath];
      calls := [];
      definitions := {};
      imports := [];
      components := {};
    }

    /** `visit`: dispatches on the node, recording what it defines, imports or calls; the scope is restored afterwards. */
    method Visit(n: Node)
      modifies this
      ensures currentScope == old(currentScope)
      ensures calls == old(calls) + VisitNode(n, old(currentScope)).calls
      ensures definitions == old(definitions) + VisitNode(n, old(currentScope)).definitions
      ensures imports == old(imports) + VisitNode(n, old(currentScope)).imports
      ensures components == old(components) + VisitNode(n, old(currentScope)).components
      decreases n
    {
      match n {
        case FunctionDef(name, body) =>
          var scopeName := Join(currentScope + [name], '.');
          definitions := definitions + {scopeName};
          currentScope := currentScope + [name];
          VisitAll(body);
          currentScope := currentScope[..|currentScope| - 1];
        case ClassDef(name, body) =>
          var scopeName := Join(currentScope + [name], '.');
          definitions := definitions + {scopeName};
          components := components + {scopeName};
          currentScope := currentScope + [name];
          VisitAll(body);
          currentScope := currentScope[..|currentScope| - 1];
        case CallNode(inferred, children) =>
          var callerPath := Join(currentScope, '.');
          calls := calls + [CallRecord(callerPath, inferred)];
          VisitAll(children);
        case ImportStmt(imp) =>
          if !IsFutureImport(imp) {
            imports := imports + [imp];
          }
        case OtherNode(children) =>
          VisitAll(children);
      }
    }

    /** `generic_visit`: the children in order. */
    method VisitAll(ns: seq<Node>)
      modifies this
      ensures currentScope == old(currentScope)
      ensures calls == old(calls) + VisitNodes(ns, old(currentScope)).calls
      ensures definitions == old(definitions) + VisitNodes(ns, old(currentScope)).definitions
      ensures imports == old(imports) + VisitNodes(ns, old(currentScope)).imports
      ensures components == old(components) + VisitNodes(ns, old(currentScope)).components
      decreases ns
    {
      var k := 0;
      while k < |ns|
        invariant 0 <= k <= |ns|
        invariant currentScope == old(currentScope)
        invariant calls == old(calls) + VisitNodes(ns[..k], old(currentScope)).calls
        invariant definitions == old(definitions) + VisitNodes(ns[..k], old(currentScope)).definitions
        invariant imports == old(imports) + VisitNodes(ns[..k], old(currentScope)).imports
        invariant components == old(components) + VisitNodes(ns[..k], old(currentScope)).components
      {
        assert ns[..k + 1][..k] == ns[..k];
        Visit(ns[k]);
        k := k + 1;
      }
      assert ns[..k] == ns;
    }
  }

  // ---------------------------------------------------------------------
  // properties of the visitor
  // ---------------------------------------------------------------------

  /** Every component is a definition: classes are recorded in both. */
  lemma {:induction false} ComponentsAreDefinitions(n: Node, scope: seq<string>)
    ensures VisitNode(n, scope).components <= VisitNode(n, scope).definitions
    decreases n
  {
    match n
    case FunctionDef(name, body) => ComponentsAreDefinitionsAll(body, scope + [name]);
    case ClassDef(name, body) => ComponentsAreDefinitionsAll(body, scope + [name]);
    case CallNode(_, children) => ComponentsAreDefinitionsAll(children, scope);
    case ImportStmt(_) =>
    case OtherNode(children) => ComponentsAreDefinitionsAll(children, scope);
  }

  lemma {:induction false} ComponentsAreDefinitionsAll(ns: seq<Node>, scope: seq<string>)
    ensures VisitNodes(ns, scope).components <= VisitNodes(ns, scope).definitions
    decreases ns
  {
    if |ns| > 0 {
      ComponentsAreDefinitionsAll(ns[..|ns| - 1], scope);
      ComponentsAreDefinitions(ns[|ns| - 1], scope);
    }
  }

  /** A call is recorded with its enclosing scope: the scope the visit started in, or one of the definitions found. */
  lemma {:induction false} CallersAreScopes(n: Node, scope: seq<string>, c: CallRecord)
    requires c in VisitNode(n, scope).calls
    ensures c.callerPath == Join(scope, '.') || c.callerPath in VisitNode(n, scope).definitions
    decreases n
  {
    match n
    case FunctionDef(name, body) => CallersAreScopesAll(body, scope + [name], c);
    case ClassDef(name, body) => CallersAreScopesAll(body, scope + [name], c);
    case CallNode(_, children) =>
      if c in VisitNodes(children, scope).calls {
        CallersAreScopesAll(children, scope, c);
      }
    case ImportStmt(_) =>
    case OtherNode(children) => CallersAreScopesAll(children, scope, c);
  }

  lemma {:induction false} CallersAreScopesAll(ns: seq<Node>, scope: seq<string>, c: CallRecord)
    requires c in VisitNodes(ns, scope).calls
    ensures c.callerPath == Join(scope, '.') || c.callerPath in VisitNodes(ns, scope).definitions
    decreases ns
  {
    var init := ns[..|ns| - 1];
    if c in VisitNodes(init, scope).calls {
      CallersAreScopesAll(init, scope, c);
    } else {
      CallersAreScopes(ns[|ns| - 1], scope, c);
    }
  }

  /** `from __future__` imports are never recorded. */
  lemma {:induction false} NoFutureImports(n: Node, scope: seq<string>)
    ensures forall i :: 0 <= i < |VisitNode(n, scope).imports| ==> !IsFutureImport(VisitNode(n, scope).imports[i])
    decreases n
  {
    match n
    case FunctionDef(name, body) => NoFutureImportsAll(body, scope + [name]);
    case ClassDef(name, body) => NoFutureImportsAll(body, scope + [name]);
    case CallNode(_, children) => NoFutureImportsAll(children, scope);
    case ImportStmt(_) =>
    case OtherNode(children) => NoFutureImportsAll(children, scope);
  }

  lemma {:induction false} NoFutureImportsAll(ns: seq<Node>, scope: seq<string>)
    ensures forall i :: 0 <= i < |VisitNodes(ns, scope).imports| ==> !IsFutureImport(VisitNodes(ns, scope).imports[i])
    decreases ns
  {
    if |ns| > 0 {
      NoFutureImportsAll(ns[..|ns| - 1], scope);
      NoFutureImports(ns[|ns| - 1], scope);
    }
  }

  // ---------------------------------------------------------------------
  // classification of a module's definitions
  // ---------------------------------------------------------------------

  /** How one definition path is listed: as a class, as a function, not at all, or by raising `IndexError`. */
  datatype Kind = AsClass(className: string) | AsFunction(functionName: string) | NotListed | RaisesIndexError

  /**
   * The classification of one definition path: single-segment paths, methods
   * (more than two segments with an uppercase-initial parent) and private
   * names are not listed; the rest are classes when uppercase-initial. An
   * empty segment where a first character is read raises `IndexError`.
   */
  function Classify(defPath: string): (r: Kind)
    ensures r.AsClass? ==> var parts := Split(defPath, '.');
              |parts| >= 2 && r.className == parts[|parts| - 1] && |r.className| > 0 && IsUpper(r.className[0])
    ensures r.AsFunction? ==> var parts := Split(defPath, '.');
              |parts| >= 2 && r.functionName == parts[|parts| - 1]
              && |r.functionName| > 0 && !IsUpper(r.functionName[0]) && r.functionName[0] != '_'
    ensures |Split(defPath, '.')| <= 1 ==> r == NotListed
  {
    var parts := Split(defPath, '.');
    if |parts| <= 1 then NotListed
    else
      var last := parts[|parts| - 1];
      var parent := parts[|parts| - 2];
      if |parts| > 2 && |parent| == 0 then RaisesIndexError
      else
        var isMethod := |parts| > 2 && IsUpper(parent[0]);
        var isPrivate := |last| > 0 && last[0] == '_';
        if isMethod || isPrivate then NotListed
        else if |last| == 0 then RaisesIndexError
        else if IsUpper(last[0]) then AsClass(last)
        else AsFunction(last)
  }

  /** A method of an uppercase-initial class is never listed, whatever module or scope it sits in. */
  lemma MethodsNotListed(enclosing: string, className: string, name: string)
    requires '.' !in className && '.' !in name
    requires |className| > 0 && IsUpper(className[0])
    ensures Classify(enclosing + "." + className + "." + name) == NotListed
  {
    SplitSnoc(enclosing, className, '.');
    SplitSnoc(enclosing + "." + className, name, '.');
    assert enclosing + "." + className + "." + name == (enclosing + "." + className) + "." + name;
  }

  /**
   * A public, module-level definition of a module whose own name is
   * undotted or lowercase-initial is listed under its own name, as a class
   * exactly when uppercase-initial.
   */
  lemma TopLevelListed(modulePath: string, name: string)
    requires '.' !in name && |name| > 0 && name[0] != '_'
    requires '.' !in modulePath
             || (|LastSegment(modulePath, '.')| > 0 && !IsUpper(LastSegment(modulePath, '.')[0]))
    ensures Classify(modulePath + "." + name) == if IsUpper(name[0]) then AsClass(name) else AsFunction(name)
  {
    SplitSnoc(modulePath, name, '.');
    if '.' !in modulePath {
      SplitNoSep(modulePath, '.');
    }
  }

  /**
   * A dotted module name whose last segment is uppercase-initial makes every
   * module-level definition look like a method, so none of them is listed.
   */
  lemma UppercaseModuleNotListed(modulePath: string, name: string)
    requires '.' in modulePath && '.' !in name
    requires |LastSegment(modulePath, '.')| > 0 && IsUpper(LastSegment(modulePath, '.')[0])
    ensures Classify(modulePath + "." + name) == NotListed
  {
    SplitSep(modulePath, '.');
    SplitSnoc(modulePath, name, '.');
  }

  /** The sets of class and function names, or `None` when some path raises. */
  ghost function Classification(definitions: set<string>): Option<(set<string>, set<string>)>
  {
    if exists p :: p in definitions && Classify(p) == RaisesIndexError then None
    else Some(((set p | p in definitions && Classify(p).AsClass? :: Classify(p).className),
               (set p | p in definitions && Classify(p).AsFunction? :: Classify(p).functionName)))
  }

  /** The classification loop; the first path that raises ends it. */
  method ClassifyDefinitions(definitions: set<string>) returns (r: Option<(set<string>, set<string>)>)
    ensures r == Classification(definitions)
  {
    var classes: set<string> := {};
    var functions: set<string> := {};
    var todo := definitions;
    while todo != {}
      invariant todo <= definitions
      invariant forall p :: p in definitions - todo ==> Classify(p) != RaisesIndexError
      invariant classes == set p | p in definitions - todo && Classify(p).AsClass? :: Classify(p).className
      invariant functions == set p | p in definitions - todo && Classify(p).AsFunction? :: Classify(p).functionName
      decreases |todo|
    {
      var defPath :| defPath in todo;
      var kind := Classify(defPath);
      match kind {
        case RaisesIndexError => return None;
        case AsClass(name) => classes := classes + {name};
        case AsFunction(name) => functions := functions + {name};
        case NotListed =>
      }
      todo := todo - {defPath};
    }
    assert definitions - todo == definitions;
    return Some((classes, functions));
  }

  // ---------------------------------------------------------------------
  // call edges
  // ---------------------------------------------------------------------

  /** `_resolve_call`'s filter: a named definition inside the root package. */
  predicate InRootPackage(d: JediDefinition, rootPkg: string)
  {
    Truthy(d.fullName) && rootPkg <= d.fullName.value
  }

  /** The edge one inferred definition yields for a call made from `callerPath`. */
  function CallEdge(callerPath: string, d: JediDefinition, rootPkg: string, definitions: set<string>): (r: Option<Edge>)
    ensures r.Some? ==> r.value.0 == callerPath && r.value.0 != r.value.1 && callerPath in definitions
    ensures r.Some? ==> rootPkg <= r.value.1
    ensures r.Some? ==> d.fullName.Some? && (d.kind == "function" || d.kind == "class")
    ensures r.Some? ==> r.value.1 == if d.kind == "class" then d.fullName.value + ".__init__" else d.fullName.value
  {
    if !InRootPackage(d, rootPkg) || (d.kind != "function" && d.kind != "class") then None
    else
      var calleePath := if d.kind == "class" then d.fullName.value + ".__init__" else d.fullName.value;
      if calleePath != "" && callerPath != calleePath && callerPath in definitions then Some((callerPath, calleePath))
      else None
  }

  /** The edges of one recorded call. */
  ghost function CallRecordEdges(c: CallRecord, rootPkg: string, definitions: set<string>): set<Edge>
  {
    if c.inferred.None? then {}
    else set i | 0 <= i < |c.inferred.value| && CallEdge(c.callerPath, c.inferred.value[i], rootPkg, definitions).Some?
                 :: CallEdge(c.callerPath, c.inferred.value[i], rootPkg, definitions).value
  }

  /** The edges of all recorded calls of a module. */
  ghost function ModuleCallEdges(calls: seq<CallRecord>, rootPkg: string, definitions: set<string>): set<Edge>
  {
    if |calls| == 0 then {}
    else ModuleCallEdges(calls[..|calls| - 1], rootPkg, definitions)
         + CallRecordEdges(calls[|calls| - 1], rootPkg, definitions)
  }

  /** The inner loops of `analyze_code` over the recorded calls. */
  method ResolveCalls(calls: seq<CallRecord>, rootPkg: string, definitions: set<string>) returns (edges: set<Edge>)
    ensures edges == ModuleCallEdges(calls, rootPkg, definitions)
  {
    edges := {};
    var k := 0;
    while k < |calls|
      invariant 0 <= k <= |calls|
      invariant edges == ModuleCallEdges(calls[..k], rootPkg, definitions)
    {
      assert calls[..k + 1][..k] == calls[..k];
      var c := calls[k];
      ghost var before := edges;
      if c.inferred.Some? {
        var ds := c.inferred.value;
        var j := 0;
        while j < |ds|
          invariant 0 <= j <= |ds|
          invariant edges == before + set i | 0 <= i < j && CallEdge(c.callerPath, ds[i], rootPkg, definitions).Some?
                                              :: CallEdge(c.callerPath, ds[i], rootPkg, definitions).value
        {
          var edge := CallEdge(c.callerPath, ds[j], rootPkg, definitions);
          if edge.Some? {
            edges := edges + {edge.value};
          }
          j := j + 1;
        }
      }
      k := k + 1;
    }
    assert calls[..k] == calls;
  }

  /** Calls made at module level are never edges: their caller is the module path itself, not a definition. */
  lemma ModuleLevelCallsDropped(c: CallRecord, rootPkg: string, definitions: set<string>, e: Edge)
    requires c.callerPath !in definitions
    ensures e !in CallRecordEdges(c, rootPkg, definitions)
  {
  }

  // ---------------------------------------------------------------------
  // analyze_code
  // ---------------------------------------------------------------------

  /** A file of the project: its name, its dotted module name, and its tree (`None` when reading or parsing fails). */
  datatype SourceFile = SourceFile(fileName: string, moduleName: string, tree: Option<seq<Node>>)

  datatype ModuleDetails = ModuleDetails(classes: seq<string>, functions: seq<string>)

  datatype CodeAnalysis = CodeAnalysis(callGraph: set<Edge>, components: set<string>,
                                       moduleDetails: map<string, ModuleDetails>)

  /** What the visitor records for a file that is analysed. */
  function FileVisit(f: SourceFile): Visited
    requires f.tree.Some?
  {
    VisitNodes(f.tree.value, [f.moduleName])
  }

  /** The file takes part: it is not an `__init__.py` and its tree could be built. */
  predicate Analysed(f: SourceFile)
  {
    f.fileName != "__init__.py" && f.tree.Some?
  }

  /** The file's details are recorded: it is analysed and the classification of its definitions does not raise. */
  ghost predicate Detailed(f: SourceFile)
  {
    Analysed(f) && Classification(FileVisit(f).definitions).Some?
  }

  /** Sorted, duplicate-free lists of exactly the members of a set. */
  ghost predicate SortedListOf(r: seq<string>, s: set<string>)
  {
    StrictlySorted(r, Less) && (forall x :: x in r <==> x in s)
  }

  /** `d` lists the file's public classes and functions, each sorted. */
  ghost predicate DetailsFor(f: SourceFile, d: ModuleDetails)
  {
    Detailed(f)
    && SortedListOf(d.classes, Classification(FileVisit(f).definitions).value.0)
    && SortedListOf(d.functions, Classification(FileVisit(f).definitions).value.1)
  }

  /** Components survive a classification that raises: they are collected before it. */
  ghost function AllComponents(files: seq<SourceFile>): set<string>
  {
    if |files| == 0 then {}
    else
      var f := files[|files| - 1];
      AllComponents(files[..|files| - 1]) + (if Analysed(f) then FileVisit(f).components else {})
  }

  ghost function AllCallEdges(files: seq<SourceFile>, rootPkg: string): set<Edge>
  {
    if |files| == 0 then {}
    else
      var f := files[|files| - 1];
      AllCallEdges(files[..|files| - 1], rootPkg)
      + (if Detailed(f) then ModuleCallEdges(FileVisit(f).calls, rootPkg, FileVisit(f).definitions) else {})
  }

  /** The module names whose details are recorded. */
  ghost function DetailedModules(files: seq<SourceFile>): set<string>
  {
    set i | 0 <= i < |files| && Detailed(files[i]) :: files[i].moduleName
  }

  /** `d` is the details of the last detailed file among the first `k` that has module name `m`: later files overwrite. */
  ghost predicate LastDetails(files: seq<SourceFile>, k: nat, m: string, d: ModuleDetails)
    requires k <= |files|
  {
    exists i :: 0 <= i < k && files[i].moduleName == m && DetailsFor(files[i], d)
                && forall j :: i < j < k && files[j].moduleName == m ==> !Detailed(files[j])
  }

  /** One iteration of `analyze_code`'s loop body for an analysed file. */
  method AnalyzeFile(rootPkg: string, f: SourceFile)
    returns (components: set<string>, details: Option<ModuleDetails>, edges: set<Edge>)
    ensures components == if Analysed(f) then FileVisit(f).components else {}
    ensures details.Some? <==> Detailed(f)
    ensures details.Some? ==> DetailsFor(f, details.value)
    ensures edges == if Detailed(f) then ModuleCallEdges(FileVisit(f).calls, rootPkg, FileVisit(f).definitions) else {}
  {
    if !Analysed(f) {
      return {}, None, {};
    }
    var visitor := new CodeVisitor(f.moduleName);
    visitor.VisitAll(f.tree.value);
    assert visitor.definitions == FileVisit(f).definitions && visitor.calls == FileVisit(f).calls;
    components := visitor.components;
    var classification := ClassifyDefinitions(visitor.definitions);
    assert classification.Some? <==> Detailed(f);
    if classification.None? {
      return components, None, {};
    }
    StringOrder();
    var classes := SortSet(classification.value.0, Less);
    var functions := SortSet(classification.value.1, Less);
    details := Some(ModuleDetails(classes, functions));
    edges := ResolveCalls(visitor.calls, rootPkg, visitor.definitions);
  }

  /** `analyze_code`, over the files in order. */
  method AnalyzeCode(rootPkg: string, files: seq<SourceFile>) returns (result: CodeAnalysis)
    ensures result.components == AllComponents(files)
    ensures result.callGraph == AllCallEdges(files, rootPkg)
    ensures result.moduleDetails.Keys == DetailedModules(files)
    ensures forall m :: m in result.moduleDetails ==> LastDetails(files, |files|, m, result.moduleDetails[m])
  {
    var callGraph: set<Edge> := {};
    var allComponents: set<string> := {};
    var allModuleDetails: map<string, ModuleDetails> := map[];
    var k := 0;
    while k < |files|
      invariant 0 <= k <= |files|
      invariant allComponents == AllComponents(files[..k])
      invariant callGraph == AllCallEdges(files[..k], rootPkg)
      invariant allModuleDetails.Keys == DetailedModules(files[..k])
      invariant forall m :: m in allModuleDetails ==> LastDetails(files, k, m, allModuleDetails[m])
    {
      assert files[..k + 1][..k] == files[..k];
      var f := files[k];
      var components, details, edges := AnalyzeFile(rootPkg, f);
      DetailedModulesStep(files, k);
      LastDetailsStep(files, k, allModuleDetails, details);
      allComponents := allComponents + components;
      callGraph := callGraph + edges;
      if details.Some? {
        allModuleDetails := allModuleDetails[f.moduleName := details.value];
      }
      k := k + 1;
    }
    assert files[..k] == files;
    result := CodeAnalysis(callGraph, allComponents, allModuleDetails);
  }

  /** The step of the detailed-module set for one more file. */
  lemma DetailedModulesStep(files: seq<SourceFile>, k: nat)
    requires k < |files|
    ensures DetailedModules(files[..k + 1])
            == DetailedModules(files[..k]) + (if Detailed(files[k]) then {files[k].moduleName} else {})
  {
    var before, after := files[..k], files[..k + 1];
    assert forall i :: 0 <= i < k ==> after[i] == before[i];
    if Detailed(files[k]) {
      assert after[k] == files[k];
    }
  }

  /** The overwrite rule of the details map, one file further. */
  lemma LastDetailsStep(files: seq<SourceFile>, k: nat, details: map<string, ModuleDetails>, next: Option<ModuleDetails>)
    requires k < |files|
    requires forall m :: m in details ==> LastDetails(files, k, m, details[m])
    requires next.Some? <==> Detailed(files[k])
    requires next.Some? ==> DetailsFor(files[k], next.value)
    ensures var updated := if next.Some? then details[files[k].moduleName := next.value] else details;
            forall m :: m in updated ==> LastDetails(files, k + 1, m, updated[m])
  {
    var updated := if next.Some? then details[files[k].moduleName := next.value] else details;
    forall m | m in updated
      ensures LastDetails(files, k + 1, m, updated[m])
    {
      if next.Some? && m == files[k].moduleName {
        assert DetailsFor(files[k], updated[m]);
      } else {
        var i :| 0 <= i < k && files[i].moduleName == m && DetailsFor(files[i], details[m])
                 && forall j :: i < j < k && files[j].moduleName == m ==> !Detailed(files[j]);
        assert forall j :: i < j < k + 1 && files[j].moduleName == m ==> !Detailed(files[j]);
      }
    }
  }
}
