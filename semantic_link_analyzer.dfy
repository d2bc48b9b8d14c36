/**
 * Static semantic links between components (semantics/semantic_link_analyzer.py):
 * registration through class-level collections, inheritance, decoration and
 * werkzeug-style proxies. The libcst metadata is an input: every node the
 * visitors look at arrives with the fully qualified name the metadata
 * provider gives it (`None` when it gives none).
 */
module SemanticLinkAnalyzer {
  import opened Wrappers
  import opened Strings
  import opened Fqn

  /** `(source, target, kind)`. */
  type SemanticEdge = (string, string, string)

  /** `_resolve_to_public_component` (the four visitors hold identical copies). */
  function ResolveToPublicComponent(fqn: Option<string>, allComponents: set<string>): (r: Option<string>)
    ensures !Truthy(fqn) ==> r == None
    ensures Truthy(fqn) && BeforeFirst(fqn.value, ".<locals>.") in allComponents ==>
              r == Some(BeforeFirst(fqn.value, ".<locals>."))
    ensures Truthy(fqn) && BeforeFirst(fqn.value, ".<locals>.") !in allComponents ==>
              r == LongestProperPrefixIn(BeforeFirst(fqn.value, ".<locals>."), allComponents)
    ensures r.Some? ==> r.value in allComponents
  {
    if !Truthy(fqn) then None
    else
      var path := BeforeFirst(fqn.value, ".<locals>.");
      if path in allComponents then Some(path)
      else LongestProperPrefixIn(path, allComponents)
  }

  /** A resolved component is the fqn itself, cut at `.<locals>.`, or a proper dotted prefix of it. */
  lemma ResolvedIsPrefix(fqn: Option<string>, allComponents: set<string>)
    requires ResolveToPublicComponent(fqn, allComponents).Some?
    ensures ResolveToPublicComponent(fqn, allComponents).value <= fqn.value
  {
    var path := BeforeFirst(fqn.value, ".<locals>.");
    var r := ResolveToPublicComponent(fqn, allComponents).value;
    if path !in allComponents {
      var parts := Split(path, '.');
      var k :| 1 <= k < |parts| && r == PrefixOf(parts, k) && r in allComponents
        && forall j :: k < j < |parts| ==> PrefixOf(parts, j) !in allComponents;
      assert IsProperPrefix(path, r);
      ProperPrefixIsPrefix(path, r);
    }
  }

  // ---------------------------------------------------------------------
  // the nodes the four visitors match, with their metadata resolved
  // ---------------------------------------------------------------------

  /** `x = [A, B]` or `x = (A, B)`: the enclosing class's fqn and each element's fqn. */
  datatype CollectionAssign = CollectionAssign(enclosingClassFqn: Option<string>, elementFqns: seq<Option<string>>)

  /** `class Child(Base1, Base2)`: the name's fqn and each base's fqn. */
  datatype ClassDefNode = ClassDefNode(childFqn: Option<string>, baseFqns: seq<Option<string>>)

  /** The syntactic shape of a decorator expression, with the fqn of its `value` part. */
  datatype DecoratorShape = CallOfAttribute(valueFqn: Option<string>) | AttributeOf(valueFqn: Option<string>) | OtherShape

  /** `@decorator` on the definition it is attached to. */
  datatype DecoratorNode = DecoratorNode(parentIsDefinition: bool, childFqn: Option<string>,
                                         decoratorFqn: Option<string>, shape: DecoratorShape)

  /** The module expression of `from <module> import ...`. */
  datatype ModuleExpr = ModuleName(name: string) | ModuleAttribute(value: ModuleExpr, attr: string) | OtherModuleExpr

  datatype AssignedNode = ImportFrom(moduleExpr: Option<ModuleExpr>) | OtherAssignment

  /** One entry of the scope's `assignments`. */
  datatype ScopeAssignment = ScopeAssignment(name: string, node: AssignedNode)

  /** The callee of `X = Callee(...)`. */
  datatype CallFunc = FuncName(name: string) | FuncAttribute(attr: string) | OtherFunc

  /** The body of `lambda: body`. */
  datatype LambdaBody = BodyNameOrAttribute(fqn: Option<string>) | BodyCallOf(funcFqn: Option<string>) | OtherBody

  /** The first argument of the call. */
  datatype ProxyArg = LambdaArg(body: LambdaBody) | NameOrAttributeArg(fqn: Option<string>) | OtherArg

  /** `X = LocalProxy(arg, ...)`: the target's fqn, the callee, its scope's assignments, the first argument. */
  datatype ProxyAssignment = ProxyAssignment(targetFqn: Option<string>, func: CallFunc,
                                             scope: seq<ScopeAssignment>, firstArg: Option<ProxyArg>)

  // ---------------------------------------------------------------------
  // the edge-emission rules
  // ---------------------------------------------------------------------

  /** The edge an optional result contributes to an edge set. */
  function EdgeSet(o: Option<SemanticEdge>): set<SemanticEdge>
  {
    if o.Some? then {o.value} else {}
  }

  /** The `registers` edge one collection element yields, from the enclosing class's component. */
  function RegistreeEdge(registrar: string, elementFqn: Option<string>, rootPkg: string, allComponents: set<string>)
    : (r: Option<SemanticEdge>)
    ensures r.Some? <==> Truthy(elementFqn) && rootPkg <= elementFqn.value
                         && Truthy(ResolveToPublicComponent(elementFqn, allComponents))
                         && ResolveToPublicComponent(elementFqn, allComponents).value != registrar
    ensures r.Some? ==> r.value == (registrar, ResolveToPublicComponent(elementFqn, allComponents).value, "registers")
  {
    if !Truthy(elementFqn) || !(rootPkg <= elementFqn.value) then None
    else
      var registree := ResolveToPublicComponent(elementFqn, allComponents);
      if Truthy(registree) && registrar != registree.value then Some((registrar, registree.value, "registers")) else None
  }

  /** The `registers` edges of a list of elements. */
  function RegistreeEdges(registrar: string, elementFqns: seq<Option<string>>, rootPkg: string,
                          allComponents: set<string>): (r: set<SemanticEdge>)
    ensures forall e :: e in r ==> e.0 == registrar && e.0 != e.1 && e.1 in allComponents && e.2 == "registers"
  {
    if |elementFqns| == 0 then {}
    else RegistreeEdges(registrar, elementFqns[..|elementFqns| - 1], rootPkg, allComponents)
         + EdgeSet(RegistreeEdge(registrar, elementFqns[|elementFqns| - 1], rootPkg, allComponents))
  }

  /** The edges of the first `k + 1` elements: those of the first `k`, and the edge of element `k`. */
  lemma RegistreeEdgesStep(registrar: string, elementFqns: seq<Option<string>>, k: nat, rootPkg: string,
                           allComponents: set<string>)
    requires k < |elementFqns|
    ensures RegistreeEdges(registrar, elementFqns[..k + 1], rootPkg, allComponents)
            == RegistreeEdges(registrar, elementFqns[..k], rootPkg, allComponents)
               + EdgeSet(RegistreeEdge(registrar, elementFqns[k], rootPkg, allComponents))
  {
    assert elementFqns[..k + 1][..k] == elementFqns[..k];
  }

  /** An element list's edges are exactly the edges its elements yield one by one. */
  lemma {:induction false} RegistreeEdgesMembers(registrar: string, elementFqns: seq<Option<string>>, rootPkg: string,
                                                 allComponents: set<string>, e: SemanticEdge)
    ensures e in RegistreeEdges(registrar, elementFqns, rootPkg, allComponents)
        <==> exists k :: 0 <= k < |elementFqns| && RegistreeEdge(registrar, elementFqns[k], rootPkg, allComponents) == Some(e)
  {
    if |elementFqns| > 0 {
      var init := elementFqns[..|elementFqns| - 1];
      RegistreeEdgesMembers(registrar, init, rootPkg, allComponents, e);
      if e in RegistreeEdges(registrar, elementFqns, rootPkg, allComponents) {
        if e in RegistreeEdges(registrar, init, rootPkg, allComponents) {
          var k :| 0 <= k < |init| && RegistreeEdge(registrar, init[k], rootPkg, allComponents) == Some(e);
          assert elementFqns[k] == init[k];
        } else {
          var k := |init|;
          assert RegistreeEdge(registrar, elementFqns[k], rootPkg, allComponents) == Some(e);
        }
      }
      if exists k :: 0 <= k < |elementFqns| && RegistreeEdge(registrar, elementFqns[k], rootPkg, allComponents) == Some(e) {
        var k :| 0 <= k < |elementFqns| && RegistreeEdge(registrar, elementFqns[k], rootPkg, allComponents) == Some(e);
        if k < |init| {
          assert init[k] == elementFqns[k];
          assert e in RegistreeEdges(registrar, init, rootPkg, allComponents);
        }
        assert e in RegistreeEdges(registrar, elementFqns, rootPkg, allComponents);
      }
    }
  }

  /** `visit_collection_assign`: the edges of one class-level list or tuple. */
  function CollectionEdges(n: CollectionAssign, rootPkg: string, allComponents: set<string>): (r: set<SemanticEdge>)
    ensures !Truthy(ResolveToPublicComponent(n.enclosingClassFqn, allComponents)) ==> r == {}
    ensures forall e :: e in r ==> Some(e.0) == ResolveToPublicComponent(n.enclosingClassFqn, allComponents)
                                   && e.0 != e.1 && e.0 in allComponents && e.1 in allComponents && e.2 == "registers"
  {
    var registrar := ResolveToPublicComponent(n.enclosingClassFqn, allComponents);
    if !Truthy(registrar) then {}
    else RegistreeEdges(registrar.value, n.elementFqns, rootPkg, allComponents)
  }

  /** The `inherits_from` edge one base class yields. */
  function BaseEdge(child: string, baseFqn: Option<string>, allComponents: set<string>): (r: Option<SemanticEdge>)
    ensures r.Some? <==> Truthy(ResolveToPublicComponent(baseFqn, allComponents))
                         && ResolveToPublicComponent(baseFqn, allComponents).value != child
    ensures r.Some? ==> r.value == (child, ResolveToPublicComponent(baseFqn, allComponents).value, "inherits_from")
  {
    if !Truthy(baseFqn) then None
    else
      var parent := ResolveToPublicComponent(baseFqn, allComponents);
      if Truthy(parent) && child != parent.value then Some((child, parent.value, "inherits_from")) else None
  }

  /** The `inherits_from` edges of a list of bases. */
  function BaseEdges(child: string, baseFqns: seq<Option<string>>, allComponents: set<string>): (r: set<SemanticEdge>)
    ensures forall e :: e in r ==> e.0 == child && e.0 != e.1 && e.1 in allComponents && e.2 == "inherits_from"
    ensures forall k :: 0 <= k < |baseFqns| && BaseEdge(child, baseFqns[k], allComponents).Some? ==>
              BaseEdge(child, baseFqns[k], allComponents).value in r
  {
    if |baseFqns| == 0 then {}
    else
      var init := baseFqns[..|baseFqns| - 1];
      var rest := BaseEdges(child, init, allComponents);
      assert baseFqns == init + [baseFqns[|baseFqns| - 1]];
      BaseEdgesSnoc(child, init, baseFqns[|baseFqns| - 1], allComponents, rest);
      rest + EdgeSet(BaseEdge(child, baseFqns[|baseFqns| - 1], allComponents))
  }

  /** Adding the last base's edge to the edges of the others keeps both facts `BaseEdges` states. */
  lemma BaseEdgesSnoc(child: string, init: seq<Option<string>>, last: Option<string>, allComponents: set<string>,
                      rest: set<SemanticEdge>)
    requires forall e :: e in rest ==> e.0 == child && e.0 != e.1 && e.1 in allComponents && e.2 == "inherits_from"
    requires forall k :: 0 <= k < |init| && BaseEdge(child, init[k], allComponents).Some? ==>
               BaseEdge(child, init[k], allComponents).value in rest
    ensures var r := rest + EdgeSet(BaseEdge(child, last, allComponents));
            var bases := init + [last];
            (forall e :: e in r ==> e.0 == child && e.0 != e.1 && e.1 in allComponents && e.2 == "inherits_from")
            && (forall k :: 0 <= k < |bases| && BaseEdge(child, bases[k], allComponents).Some? ==>
                  BaseEdge(child, bases[k], allComponents).value in r)
  {
    var bases := init + [last];
    forall k | 0 <= k < |init|
      ensures bases[k] == init[k]
    {
    }
  }

  /** The edges of the first `k + 1` bases: those of the first `k`, and the edge of base `k`. */
  lemma BaseEdgesStep(child: string, baseFqns: seq<Option<string>>, k: nat, allComponents: set<string>)
    requires k < |baseFqns|
    ensures BaseEdges(child, baseFqns[..k + 1], allComponents)
            == BaseEdges(child, baseFqns[..k], allComponents) + EdgeSet(BaseEdge(child, baseFqns[k], allComponents))
  {
    assert baseFqns[..k + 1][..k] == baseFqns[..k];
  }

  /** A list of bases yields exactly the edges its bases yield one by one. */
  lemma {:induction false} BaseEdgesMembers(child: string, baseFqns: seq<Option<string>>, allComponents: set<string>,
                                            e: SemanticEdge)
    ensures e in BaseEdges(child, baseFqns, allComponents)
        <==> exists k :: 0 <= k < |baseFqns| && BaseEdge(child, baseFqns[k], allComponents) == Some(e)
  {
    if |baseFqns| > 0 {
      var init := baseFqns[..|baseFqns| - 1];
      BaseEdgesMembers(child, init, allComponents, e);
      if e in BaseEdges(child, baseFqns, allComponents) {
        if e in BaseEdges(child, init, allComponents) {
          var k :| 0 <= k < |init| && BaseEdge(child, init[k], allComponents) == Some(e);
          assert baseFqns[k] == init[k];
        } else {
          assert BaseEdge(child, baseFqns[|init|], allComponents) == Some(e);
        }
      }
    }
  }

  /** `visit_class_def`: the child must be a component of the project; each base may add an edge. */
  function InheritanceEdges(n: ClassDefNode, rootPkg: string, allComponents: set<string>): (r: set<SemanticEdge>)
    ensures r != {} ==> Truthy(n.childFqn) && rootPkg <= n.childFqn.value
    ensures forall e :: e in r ==> Some(e.0) == ResolveToPublicComponent(n.childFqn, allComponents)
                                   && e.0 != e.1 && e.0 in allComponents && e.1 in allComponents && e.2 == "inherits_from"
    ensures Truthy(ResolveToPublicComponent(n.childFqn, allComponents)) && rootPkg <= n.childFqn.value ==>
              r == BaseEdges(ResolveToPublicComponent(n.childFqn, allComponents).value, n.baseFqns, allComponents)
  {
    var child := ResolveToPublicComponent(n.childFqn, allComponents);
    if !Truthy(child) || !(rootPkg <= n.childFqn.value) then {}
    else BaseEdges(child.value, n.baseFqns, allComponents)
  }

  /** The decorator names whose owning object, not the method, is the decorating component. */
  predicate IsRegistrationMethod(name: string)
  {
    name == "route" || name == "command" || name == "errorhandler" || name == "before_request"
  }

  /**
   * The name the decorating component is resolved from: for `route`,
   * `command`, `errorhandler` and `before_request` written as `x.name(...)`
   * or `x.name`, the owner `x`; otherwise the decorator itself.
   */
  function DecoratingFqn(n: DecoratorNode): (r: Option<string>)
    requires Truthy(n.decoratorFqn)
    ensures IsRegistrationMethod(LastSegment(n.decoratorFqn.value, '.')) && !n.shape.OtherShape? ==> r == n.shape.valueFqn
    ensures !IsRegistrationMethod(LastSegment(n.decoratorFqn.value, '.')) || n.shape.OtherShape? ==> r == n.decoratorFqn
  {
    if IsRegistrationMethod(LastSegment(n.decoratorFqn.value, '.')) then
      match n.shape
      case CallOfAttribute(valueFqn) => valueFqn
      case AttributeOf(valueFqn) => valueFqn
      case OtherShape => n.decoratorFqn
    else n.decoratorFqn
  }

  /**
   * `visit_decorator`: an edge from the decorating component to the decorated
   * definition, whose name lies under the root package or `builtins`.
   */
  function DecoratorEdge(n: DecoratorNode, rootPkg: string, allComponents: set<string>): (r: Option<SemanticEdge>)
    ensures r.Some? ==> r.value.2 == "decorates" && r.value.0 != r.value.1
                        && r.value.0 in allComponents && r.value.1 in allComponents
    ensures r.Some? ==> n.parentIsDefinition && Some(r.value.1) == ResolveToPublicComponent(n.childFqn, allComponents)
    ensures r.Some? <==>
              n.parentIsDefinition
              && Truthy(ResolveToPublicComponent(n.childFqn, allComponents))
              && (rootPkg <= n.childFqn.value || "builtins" <= n.childFqn.value)
              && Truthy(n.decoratorFqn)
              && Truthy(ResolveToPublicComponent(DecoratingFqn(n), allComponents))
              && ResolveToPublicComponent(DecoratingFqn(n), allComponents) != ResolveToPublicComponent(n.childFqn, allComponents)
    ensures r.Some? ==> Some(r.value.0) == ResolveToPublicComponent(DecoratingFqn(n), allComponents)
  {
    if !n.parentIsDefinition then None
    else
      var child := ResolveToPublicComponent(n.childFqn, allComponents);
      if !Truthy(child) || (!(rootPkg <= n.childFqn.value) && !("builtins" <= n.childFqn.value)) then None
      else if !Truthy(n.decoratorFqn) then None
      else
        var parent := ResolveToPublicComponent(DecoratingFqn(n), allComponents);
        if !Truthy(parent) then None
        else if child.value != parent.value then Some((parent.value, child.value, "decorates"))
        else None
  }

  /** The dotted module name of an import, its parts in source order. */
  function ModuleParts(e: ModuleExpr): seq<string>
  {
    match e
    case ModuleName(name) => [name]
    case ModuleAttribute(value, attr) => ModuleParts(value) + [attr]
    case OtherModuleExpr => []
  }

  /** The import module name `_is_proxy_call` compares with `werkzeug.local`. */
  function ModuleNameOf(e: ModuleExpr): string
  {
    Join(ModuleParts(e), '.')
  }

  function Reverse(s: seq<string>): (r: seq<string>)
    ensures |r| == |s|
    ensures forall i :: 0 <= i < |s| ==> r[i] == s[|s| - 1 - i]
  {
    if |s| == 0 then [] else Reverse(s[1..]) + [s[0]]
  }

  /**
   * The loop of `_is_proxy_call` that rebuilds a module name: attributes are
   * collected innermost-last, the head name appended, and the list reversed.
   */
  method RebuildModuleName(module_: ModuleExpr) returns (name: string)
    ensures name == ModuleNameOf(module_)
  {
    var moduleParts: seq<string> := [];
    var current := module_;
    while current.ModuleAttribute?
      invariant ModuleParts(current) + Reverse(moduleParts) == ModuleParts(module_)
      decreases current
    {
      assert ModuleParts(current) == ModuleParts(current.value) + [current.attr];
      assert Reverse(moduleParts + [current.attr]) == [current.attr] + Reverse(moduleParts);
      moduleParts := moduleParts + [current.attr];
      current := current.value;
    }
    if current.ModuleName? {
      assert Reverse(moduleParts + [current.name]) == [current.name] + Reverse(moduleParts);
      moduleParts := moduleParts + [current.name];
      assert Reverse(moduleParts) == ModuleParts(module_);
    } else {
      assert ModuleParts(current) == [];
      assert Reverse(moduleParts) == ModuleParts(module_);
    }
    name := Join(Reverse(moduleParts), '.');
  }

  /** The name a proxy callee goes by: the name itself, or the attribute of `x.attr`. */
  function CallName(func: CallFunc): Option<string>
  {
    match func
    case FuncName(name) => Some(name)
    case FuncAttribute(attr) => Some(attr)
    case OtherFunc => None
  }

  /** The assignment is `from werkzeug.local import <name>`. */
  predicate ImportsFromWerkzeugLocal(a: ScopeAssignment, name: string)
  {
    a.name == name && a.node.ImportFrom? && a.node.moduleExpr.Some? && ModuleNameOf(a.node.moduleExpr.value) == "werkzeug.local"
  }

  /** The callee is `LocalProxy` or `LocalStack`, imported in its scope from `werkzeug.local`. */
  predicate ProxyCall(func: CallFunc, scope: seq<ScopeAssignment>)
  {
    var name := CallName(func);
    name.Some? && (name.value == "LocalProxy" || name.value == "LocalStack")
    && exists i :: 0 <= i < |scope| && ImportsFromWerkzeugLocal(scope[i], name.value)
  }

  /** `_is_proxy_call`, searching the scope's assignments in order. */
  method IsProxyCall(func: CallFunc, scope: seq<ScopeAssignment>) returns (b: bool)
    ensures b == ProxyCall(func, scope)
  {
    var callName: string;
    match func {
      case OtherFunc => return false;
      case FuncName(name) => callName := name;
      case FuncAttribute(attr) => callName := attr;
    }
    if callName != "LocalProxy" && callName != "LocalStack" {
      return false;
    }
    var i := 0;
    while i < |scope|
      invariant 0 <= i <= |scope|
      invariant forall j :: 0 <= j < i ==> !ImportsFromWerkzeugLocal(scope[j], callName)
    {
      var assignment := scope[i];
      if assignment.name == callName && assignment.node.ImportFrom? && assignment.node.moduleExpr.Some? {
        var moduleName := RebuildModuleName(assignment.node.moduleExpr.value);
        if moduleName == "werkzeug.local" {
          return true;
        }
      }
      i := i + 1;
    }
    return false;
  }

  /** The fqn of the expression a proxy's first argument points at; `None` when the shape is not followed. */
  function ProxyTargetNode(arg: ProxyArg): Option<Option<string>>
  {
    match arg
    case LambdaArg(BodyNameOrAttribute(fqn)) => Some(fqn)
    case LambdaArg(BodyCallOf(funcFqn)) => Some(funcFqn)
    case LambdaArg(OtherBody) => None
    case NameOrAttributeArg(fqn) => Some(fqn)
    case OtherArg => None
  }

  /** The proxy target's component, with the fallbacks for targets that are not components. */
  function ProxyTarget(targetFqn: Option<string>, allComponents: set<string>): (r: Option<string>)
    ensures Truthy(ResolveToPublicComponent(targetFqn, allComponents)) ==>
              r == ResolveToPublicComponent(targetFqn, allComponents)
    ensures !Truthy(ResolveToPublicComponent(targetFqn, allComponents)) ==>
              r == if !Truthy(targetFqn) then None
                   else if EndsWith(targetFqn.value, "_cv_app") then Some("flask.globals.AppContextProxy")
                   else targetFqn
  {
    var target := ResolveToPublicComponent(targetFqn, allComponents);
    if Truthy(target) then target
    else if Truthy(targetFqn) && EndsWith(targetFqn.value, "_cv_app") then Some("flask.globals.AppContextProxy")
    else if Truthy(targetFqn) then targetFqn
    else None
  }

  /** The proxy object's component, or its own fqn when it is not inside a component. */
  function ProxySource(proxyFqn: Option<string>, allComponents: set<string>): (r: Option<string>)
    ensures Truthy(proxyFqn) && !Truthy(ResolveToPublicComponent(proxyFqn, allComponents)) ==> r == proxyFqn
    ensures !Truthy(proxyFqn) ==> r == None
  {
    var proxy := ResolveToPublicComponent(proxyFqn, allComponents);
    if Truthy(proxyFqn) && !Truthy(proxy) then proxyFqn else proxy
  }

  /** `visit_proxy_assignment`, once the callee is known to be a proxy constructor. */
  function ProxyEdge(n: ProxyAssignment, allComponents: set<string>): (r: Option<SemanticEdge>)
    ensures r.Some? ==> r.value.2 == "proxies" && r.value.0 != r.value.1 && r.value.0 != "" && r.value.1 != ""
    ensures r.Some? ==> Some(r.value.0) == ProxySource(n.targetFqn, allComponents)
    ensures r.Some? ==> n.firstArg.Some? && ProxyTargetNode(n.firstArg.value).Some?
                        && Some(r.value.1) == ProxyTarget(ProxyTargetNode(n.firstArg.value).value, allComponents)
    ensures Truthy(ProxySource(n.targetFqn, allComponents)) && n.firstArg.Some? && ProxyTargetNode(n.firstArg.value).Some?
            && Truthy(ProxyTarget(ProxyTargetNode(n.firstArg.value).value, allComponents))
            ==> (r.None? <==> ProxySource(n.targetFqn, allComponents) == ProxyTarget(ProxyTargetNode(n.firstArg.value).value, allComponents))
  {
    var proxy := ProxySource(n.targetFqn, allComponents);
    if !Truthy(proxy) || n.firstArg.None? then None
    else match ProxyTargetNode(n.firstArg.value)
      case None => None
      case Some(targetFqn) =>
        var target := ProxyTarget(targetFqn, allComponents);
        if !Truthy(target) || proxy.value == target.value then None
        else Some((proxy.value, target.value, "proxies"))
  }

  /** `visit_proxy_assignment`: one edge at most, and only from a werkzeug proxy constructor. */
  function ProxyEdges(n: ProxyAssignment, allComponents: set<string>): (r: set<SemanticEdge>)
    ensures r != {} ==> ProxyCall(n.func, n.scope)
    ensures forall e :: e in r ==> e.0 != e.1 && e.2 == "proxies"
  {
    if ProxyCall(n.func, n.scope) then EdgeSet(ProxyEdge(n, allComponents)) else {}
  }

  /** `visit_decorator`: one edge at most. */
  function DecoratorEdges(n: DecoratorNode, rootPkg: string, allComponents: set<string>): (r: set<SemanticEdge>)
    ensures forall e :: e in r ==> e.0 != e.1 && e.0 in allComponents && e.1 in allComponents && e.2 == "decorates"
  {
    EdgeSet(DecoratorEdge(n, rootPkg, allComponents))
  }

  // ---------------------------------------------------------------------
  // the visitors
  // ---------------------------------------------------------------------

  /** The state the four visitor classes share: the root package, the components, and the edges found. */
  class SemanticLinkVisitor {
    const rootPkg: string
    const allComponents: set<string>
    var semanticEdges: set<SemanticEdge>

    constructor (rootPkg: string, allComponents: set<string>)
      ensures this.rootPkg == rootPkg && this.allComponents == allComponents
      ensures semanticEdges == {}
    {
      this.rootPkg := rootPkg;
      this.allComponents := allComponents;
      semanticEdges := {};
    }

    /** `_CollectionRegistrationVisitor.visit_collection_assign`. */
    method VisitCollectionAssign(n: CollectionAssign)
      modifies this
      ensures semanticEdges == old(semanticEdges) + CollectionEdges(n, rootPkg, allComponents)
    {
      var registrar := ResolveToPublicComponent(n.enclosingClassFqn, allComponents);
      if !Truthy(registrar) {
        return;
      }
      ghost var start := semanticEdges;
      var k := 0;
      while k < |n.elementFqns|
        invariant 0 <= k <= |n.elementFqns|
        invariant semanticEdges == start + RegistreeEdges(registrar.value, n.elementFqns[..k], rootPkg, allComponents)
      {
        RegistreeEdgesStep(registrar.value, n.elementFqns, k, rootPkg, allComponents);
        var registreeFqn := n.elementFqns[k];
        if Truthy(registreeFqn) && rootPkg <= registreeFqn.value {
          var registree := ResolveToPublicComponent(registreeFqn, allComponents);
          if Truthy(registree) && registrar.value != registree.value {
            semanticEdges := semanticEdges + {(registrar.value, registree.value, "registers")};
          }
        }
        k := k + 1;
      }
      assert n.elementFqns[..k] == n.elementFqns;
    }

    /** `_InheritanceVisitor.visit_class_def`. */
    method VisitClassDef(n: ClassDefNode)
      modifies this
      ensures semanticEdges == old(semanticEdges) + InheritanceEdges(n, rootPkg, allComponents)
    {
      var child := ResolveToPublicComponent(n.childFqn, allComponents);
      if !Truthy(child) || !(rootPkg <= n.childFqn.value) {
        return;
      }
      ghost var start := semanticEdges;
      var k := 0;
      while k < |n.baseFqns|
        invariant 0 <= k <= |n.baseFqns|
        invariant semanticEdges == start + BaseEdges(child.value, n.baseFqns[..k], allComponents)
      {
        BaseEdgesStep(child.value, n.baseFqns, k, allComponents);
        var parentFqn := n.baseFqns[k];
        if Truthy(parentFqn) {
          var parent := ResolveToPublicComponent(parentFqn, allComponents);
          if Truthy(parent) && child.value != parent.value {
            semanticEdges := semanticEdges + {(child.value, parent.value, "inherits_from")};
          }
        }
        k := k + 1;
      }
      assert n.baseFqns[..k] == n.baseFqns;
    }

    /** `_DecoratorVisitor.visit_decorator`. */
    method VisitDecorator(n: DecoratorNode)
      modifies this
      ensures semanticEdges == old(semanticEdges) + DecoratorEdges(n, rootPkg, allComponents)
    {
      var edge := DecoratorEdge(n, rootPkg, allComponents);
      if edge.Some? {
        semanticEdges := semanticEdges + {edge.value};
      }
    }

    /** `_ProxyVisitor.visit_proxy_assignment`. */
    method VisitProxyAssignment(n: ProxyAssignment)
      modifies this
      ensures semanticEdges == old(semanticEdges) + ProxyEdges(n, allComponents)
    {
      var isProxy := IsProxyCall(n.func, n.scope);
      if !isProxy {
        return;
      }
      var edge := ProxyEdge(n, allComponents);
      if edge.Some? {
        semanticEdges := semanticEdges + {edge.value};
      }
    }
  }

  // ---------------------------------------------------------------------
  // properties of the rules
  // ---------------------------------------------------------------------

  /** The decorating side of a `decorates` edge is the component of the decorator (or of its owner). */
  lemma DecoratorSourceIsDecorator(n: DecoratorNode, rootPkg: string, allComponents: set<string>)
    requires DecoratorEdge(n, rootPkg, allComponents).Some?
    ensures var e := DecoratorEdge(n, rootPkg, allComponents).value;
            e.0 in allComponents && e.1 in allComponents
            && (Some(e.0) == ResolveToPublicComponent(n.decoratorFqn, allComponents)
                || ((n.shape.CallOfAttribute? || n.shape.AttributeOf?)
                    && Some(e.0) == ResolveToPublicComponent(n.shape.valueFqn, allComponents)))
  {
  }

  /** The proxy-target fallback: `_cv_app` names become the app-context proxy, other names stand for themselves. */
  lemma ProxyTargetFallback(targetFqn: Option<string>, allComponents: set<string>)
    ensures ProxyTarget(targetFqn, allComponents).None? <==> !Truthy(targetFqn)
    ensures Truthy(targetFqn) && BeforeFirst(targetFqn.value, ".<locals>.") !in allComponents
            && !HasProperPrefixIn(BeforeFirst(targetFqn.value, ".<locals>."), allComponents)
            && EndsWith(targetFqn.value, "_cv_app") ==>
              ProxyTarget(targetFqn, allComponents) == Some("flask.globals.AppContextProxy")
  {
  }

  /** `from werkzeug.local import LocalProxy` is rebuilt in source order. */
  lemma WerkzeugLocalRebuilt()
    ensures ModuleNameOf(ModuleAttribute(ModuleName("werkzeug"), "local")) == "werkzeug.local"
    ensures ModuleNameOf(ModuleAttribute(ModuleName("local"), "werkzeug")) != "werkzeug.local"
  {
    assert ModuleParts(ModuleAttribute(ModuleName("werkzeug"), "local")) == ["werkzeug", "local"];
    assert ModuleParts(ModuleAttribute(ModuleName("local"), "werkzeug")) == ["local", "werkzeug"];
    assert Join(["local", "werkzeug"], '.')[0] == 'l';
  }

  // ---------------------------------------------------------------------
  // the orchestrator
  // ---------------------------------------------------------------------

  /** What the four visitors match in one file. */
  datatype FileNodes = FileNodes(collections: seq<CollectionAssign>, classDefs: seq<ClassDefNode>,
                                 decorators: seq<DecoratorNode>, proxies: seq<ProxyAssignment>)

  /** The edge kinds the analysis emits. */
  predicate KnownKind(kind: string)
  {
    kind == "registers" || kind == "inherits_from" || kind == "decorates" || kind == "proxies"
  }

  function CollectionsEdges(nodes: seq<CollectionAssign>, rootPkg: string, allComponents: set<string>)
    : (r: set<SemanticEdge>)
    ensures forall e :: e in r ==> e.0 != e.1 && e.0 in allComponents && e.1 in allComponents && e.2 == "registers"
  {
    if |nodes| == 0 then {}
    else CollectionsEdges(nodes[..|nodes| - 1], rootPkg, allComponents)
         + CollectionEdges(nodes[|nodes| - 1], rootPkg, allComponents)
  }

  function ClassDefsEdges(nodes: seq<ClassDefNode>, rootPkg: string, allComponents: set<string>)
    : (r: set<SemanticEdge>)
    ensures forall e :: e in r ==> e.0 != e.1 && e.0 in allComponents && e.1 in allComponents && e.2 == "inherits_from"
  {
    if |nodes| == 0 then {}
    else ClassDefsEdges(nodes[..|nodes| - 1], rootPkg, allComponents)
         + InheritanceEdges(nodes[|nodes| - 1], rootPkg, allComponents)
  }

  function DecoratorsEdges(nodes: seq<DecoratorNode>, rootPkg: string, allComponents: set<string>)
    : (r: set<SemanticEdge>)
    ensures forall e :: e in r ==> e.0 != e.1 && e.0 in allComponents && e.1 in allComponents && e.2 == "decorates"
  {
    if |nodes| == 0 then {}
    else DecoratorsEdges(nodes[..|nodes| - 1], rootPkg, allComponents)
         + DecoratorEdges(nodes[|nodes| - 1], rootPkg, allComponents)
  }

  function ProxiesEdges(nodes: seq<ProxyAssignment>, allComponents: set<string>): (r: set<SemanticEdge>)
    ensures forall e :: e in r ==> e.0 != e.1 && e.2 == "proxies"
  {
    if |nodes| == 0 then {}
    else ProxiesEdges(nodes[..|nodes| - 1], allComponents) + ProxyEdges(nodes[|nodes| - 1], allComponents)
  }

  /**
   * The four visitors' edges for one file. Registration, inheritance and
   * decoration join components only; a proxy edge may name a target outside them.
   */
  function FileEdges(f: FileNodes, rootPkg: string, allComponents: set<string>): (r: set<SemanticEdge>)
    ensures forall e :: e in r ==> e.0 != e.1 && KnownKind(e.2)
    ensures forall e :: e in r && e.2 != "proxies" ==> e.0 in allComponents && e.1 in allComponents
  {
    CollectionsEdges(f.collections, rootPkg, allComponents) + ClassDefsEdges(f.classDefs, rootPkg, allComponents)
    + DecoratorsEdges(f.decorators, rootPkg, allComponents) + ProxiesEdges(f.proxies, allComponents)
  }

  /** The union over the files that could be analysed (`None` for a file whose wrapper failed). */
  function AllSemanticEdges(files: seq<Option<FileNodes>>, rootPkg: string, allComponents: set<string>)
    : (r: set<SemanticEdge>)
    ensures forall e :: e in r ==> e.0 != e.1 && KnownKind(e.2)
    ensures forall e :: e in r && e.2 != "proxies" ==> e.0 in allComponents && e.1 in allComponents
  {
    if |files| == 0 then {}
    else
      AllSemanticEdges(files[..|files| - 1], rootPkg, allComponents)
      + (if files[|files| - 1].Some? then FileEdges(files[|files| - 1].value, rootPkg, allComponents) else {})
  }

  /** Runs one visitor over a list of nodes. */
  method VisitCollections(v: SemanticLinkVisitor, nodes: seq<CollectionAssign>)
    modifies v
    ensures v.semanticEdges == old(v.semanticEdges) + CollectionsEdges(nodes, v.rootPkg, v.allComponents)
  {
    var k := 0;
    while k < |nodes|
      invariant 0 <= k <= |nodes|
      invariant v.semanticEdges == old(v.semanticEdges) + CollectionsEdges(nodes[..k], v.rootPkg, v.allComponents)
    {
      assert nodes[..k + 1][..k] == nodes[..k];
      v.VisitCollectionAssign(nodes[k]);
      k := k + 1;
    }
    assert nodes[..k] == nodes;
  }

  method VisitClassDefs(v: SemanticLinkVisitor, nodes: seq<ClassDefNode>)
    modifies v
    ensures v.semanticEdges == old(v.semanticEdges) + ClassDefsEdges(nodes, v.rootPkg, v.allComponents)
  {
    var k := 0;
    while k < |nodes|
      invariant 0 <= k <= |nodes|
      invariant v.semanticEdges == old(v.semanticEdges) + ClassDefsEdges(nodes[..k], v.rootPkg, v.allComponents)
    {
      assert nodes[..k + 1][..k] == nodes[..k];
      v.VisitClassDef(nodes[k]);
      k := k + 1;
    }
    assert nodes[..k] == nodes;
  }

  method VisitDecorators(v: SemanticLinkVisitor, nodes: seq<DecoratorNode>)
    modifies v
    ensures v.semanticEdges == old(v.semanticEdges) + DecoratorsEdges(nodes, v.rootPkg, v.allComponents)
  {
    var k := 0;
    while k < |nodes|
      invariant 0 <= k <= |nodes|
      invariant v.semanticEdges == old(v.semanticEdges) + DecoratorsEdges(nodes[..k], v.rootPkg, v.allComponents)
    {
      assert nodes[..k + 1][..k] == nodes[..k];
      v.VisitDecorator(nodes[k]);
      k := k + 1;
    }
    assert nodes[..k] == nodes;
  }

  method VisitProxies(v: SemanticLinkVisitor, nodes: seq<ProxyAssignment>)
    modifies v
    ensures v.semanticEdges == old(v.semanticEdges) + ProxiesEdges(nodes, v.allComponents)
  {
    var k := 0;
    while k < |nodes|
      invariant 0 <= k <= |nodes|
      invariant v.semanticEdges == old(v.semanticEdges) + ProxiesEdges(nodes[..k], v.allComponents)
    {
      assert nodes[..k + 1][..k] == nodes[..k];
      v.VisitProxyAssignment(nodes[k]);
      k := k + 1;
    }
    assert nodes[..k] == nodes;
  }

  /** The four visitors over one file, each with its own state, their edges unioned. */
  method AnalyzeFile(f: FileNodes, rootPkg: string, allComponents: set<string>) returns (edges: set<SemanticEdge>)
    ensures edges == FileEdges(f, rootPkg, allComponents)
  {
    var collectionVisitor := new SemanticLinkVisitor(rootPkg, allComponents);
    VisitCollections(collectionVisitor, f.collections);
    var inheritanceVisitor := new SemanticLinkVisitor(rootPkg, allComponents);
    VisitClassDefs(inheritanceVisitor, f.classDefs);
    var decoratorVisitor := new SemanticLinkVisitor(rootPkg, allComponents);
    VisitDecorators(decoratorVisitor, f.decorators);
    var proxyVisitor := new SemanticLinkVisitor(rootPkg, allComponents);
    VisitProxies(proxyVisitor, f.proxies);
    edges := collectionVisitor.semanticEdges + inheritanceVisitor.semanticEdges
             + decoratorVisitor.semanticEdges + proxyVisitor.semanticEdges;
  }

  /** `analyze_semantic_links`: the union of every file's edges. */
  method AnalyzeSemanticLinks(files: seq<Option<FileNodes>>, rootPkg: string, allComponents: set<string>)
    returns (allEdges: set<SemanticEdge>)
    ensures allEdges == AllSemanticEdges(files, rootPkg, allComponents)
  {
    allEdges := {};
    var k := 0;
    while k < |files|
      invariant 0 <= k <= |files|
      invariant allEdges == AllSemanticEdges(files[..k], rootPkg, allComponents)
    {
      assert files[..k + 1][..k] == files[..k];
      if files[k].Some? {
        var fileEdges := AnalyzeFile(files[k].value, rootPkg, allComponents);
        allEdges := allEdges + fileEdges;
      }
      k := k + 1;
    }
    assert files[..k] == files;
  }
}
