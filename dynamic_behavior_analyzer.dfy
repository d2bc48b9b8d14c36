/**
 * Rule-driven discovery of producer/consumer behaviour
 * (semantics/dynamic_behavior_analyzer.py). The libcst matchers, the
 * parent-node and position metadata are inputs: a match site carries its
 * ancestor chain and line number, and whether a matcher fires on a node is a
 * given predicate.
 */
module DynamicBehaviorAnalyzer {
  import opened Wrappers
  import opened Strings

  /** One `producer` or `consumer` part of a rule; absent keys are `None`. */
  datatype PartConfig = PartConfig(
    matchTarget: Option<string>,
    methodFqn: Option<string>,
    keyArgument: Option<string>,
    valueArgument: Option<string>,
    role: Option<string>)

  datatype Rule = Rule(
    ruleType: Option<string>,
    ruleName: Option<string>,
    correlationKey: Option<string>,
    producer: Option<PartConfig>,
    consumer: Option<PartConfig>)

  /** The two matcher shapes: a dict literal holding a key (and maybe a value), or a function definition. */
  datatype Matcher =
    | DictMatcher(key: string, value: Option<string>)
    | FunctionEntryMatcher(methodFqn: string, simpleName: string)

  type MatcherEntry = (Rule, PartConfig, Matcher)

  /** What a fully qualified name lookup on a definition gives: its names, or an error. */
  datatype FqnLookup = Names(names: seq<string>) | LookupFailed

  /** A node on the way from the match up to the module. */
  datatype Ancestor = Definition(lookup: FqnLookup) | OtherNode

  /** Where a matcher fired: the node and its ancestors, innermost first, and its line if known. */
  datatype MatchSite = MatchSite(ancestors: seq<Ancestor>, line: Option<int>)

  datatype Finding = Finding(
    callerFqn: string,
    correlationKey: Option<string>,
    ruleName: Option<string>,
    role: string,
    lineNumber: Option<int>,
    matchTarget: Option<string>)

  datatype Link = Link(source: string, target: string, linkLabel: Option<string>,
                       producerInfo: Finding, consumerInfo: Finding)

  /** The result of `analyze_dynamic_behavior`: links, `{}`, or the uncaught `KeyError` of a bad role. */
  datatype Analysis = Links(links: seq<Link>) | NothingAnalyzed | RoleKeyError(role: string)

  // ---------------------------------------------------------------------
  // matcher selection
  // ---------------------------------------------------------------------

  /** `_build_matcher`, with `_build_dict_matcher` and `_build_func_entry_matcher`. */
  function BuildMatcher(config: PartConfig): (r: Option<Matcher>)
    ensures r.Some? <==>
              (config.matchTarget == Some("dict_creation") && Truthy(config.keyArgument))
              || (config.matchTarget == Some("function_entry") && Truthy(config.methodFqn))
    ensures r.Some? && r.value.DictMatcher? ==>
              Some(r.value.key) == config.keyArgument && (r.value.value.Some? <==> Truthy(config.valueArgument))
    ensures r.Some? && r.value.FunctionEntryMatcher? ==>
              Some(r.value.methodFqn) == config.methodFqn && '.' !in r.value.simpleName
  {
    if config.matchTarget == Some("dict_creation") then
      if !Truthy(config.keyArgument) then None
      else Some(DictMatcher(config.keyArgument.value,
                            if Truthy(config.valueArgument) then config.valueArgument else None))
    else if config.matchTarget == Some("function_entry") then
      if !Truthy(config.methodFqn) then None
      else Some(FunctionEntryMatcher(config.methodFqn.value, LastSegment(config.methodFqn.value, '.')))
    else None
  }

  /** The matcher entry one part of a rule contributes, if the part exists and its matcher builds. */
  function PartMatchers(rule: Rule, part: Option<PartConfig>): seq<MatcherEntry>
  {
    if part.None? then []
    else match BuildMatcher(part.value)
      case None => []
      case Some(m) => [(rule, part.value, m)]
  }

  /** The matchers the visitor's constructor builds, in rule order, producer before consumer. */
  function MatchersOf(rules: seq<Rule>): seq<MatcherEntry>
  {
    if |rules| == 0 then []
    else
      var rule := rules[|rules| - 1];
      MatchersOf(rules[..|rules| - 1])
        + (if rule.ruleType != Some("producer_consumer") then []
           else PartMatchers(rule, rule.producer) + PartMatchers(rule, rule.consumer))
  }

  /** Matchers come exactly from `producer_consumer` rules' present parts whose matcher builds. */
  lemma {:induction false} MatchersOfExact(rules: seq<Rule>, e: MatcherEntry)
    ensures e in MatchersOf(rules) <==>
              e.0 in rules && e.0.ruleType == Some("producer_consumer")
              && (e.0.producer == Some(e.1) || e.0.consumer == Some(e.1))
              && BuildMatcher(e.1) == Some(e.2)
  {
    if |rules| > 0 {
      var init := rules[..|rules| - 1];
      var rule := rules[|rules| - 1];
      MatchersOfExact(init, e);
      assert rules == init + [rule];
      assert forall x :: x in rules <==> x in init || x == rule;
    }
  }

  // ---------------------------------------------------------------------
  // one match
  // ---------------------------------------------------------------------

  /** `_get_enclosing_function_fqn`: the first definition up the chain decides. */
  function EnclosingFqn(ancestors: seq<Ancestor>): string
  {
    if |ancestors| == 0 then "global.scope"
    else match ancestors[0]
      case Definition(Names(names)) =>
        if |names| > 0 then names[0] else EnclosingFqn(ancestors[1..])
      case Definition(LookupFailed) => "unknown.scope.resolution.error"
      case OtherNode => EnclosingFqn(ancestors[1..])
  }

  /** An ancestor that ends the upward walk. */
  predicate Decides(a: Ancestor)
  {
    a.Definition? && (a.lookup.LookupFailed? || |a.lookup.names| > 0)
  }

  /** With no deciding ancestor the finding belongs to the global scope; otherwise to the first one. */
  lemma {:induction false} EnclosingFqnFirstDecides(ancestors: seq<Ancestor>)
    ensures (forall k :: 0 <= k < |ancestors| ==> !Decides(ancestors[k])) ==> EnclosingFqn(ancestors) == "global.scope"
    ensures forall k :: 0 <= k < |ancestors| && Decides(ancestors[k])
                        && (forall j :: 0 <= j < k ==> !Decides(ancestors[j])) ==>
              EnclosingFqn(ancestors) == (if ancestors[k].lookup.LookupFailed? then "unknown.scope.resolution.error"
                                          else ancestors[k].lookup.names[0])
  {
    if |ancestors| > 0 {
      EnclosingFqnFirstDecides(ancestors[1..]);
      forall k | 0 <= k < |ancestors| && Decides(ancestors[k]) && (forall j :: 0 <= j < k ==> !Decides(ancestors[j]))
        ensures EnclosingFqn(ancestors) == (if ancestors[k].lookup.LookupFailed? then "unknown.scope.resolution.error"
                                            else ancestors[k].lookup.names[0])
      {
        if k > 0 {
          assert !Decides(ancestors[0]);
          assert ancestors[1..][k - 1] == ancestors[k];
          assert forall j :: 0 <= j < k - 1 ==> ancestors[1..][j] == ancestors[j + 1];
        }
      }
      if forall k :: 0 <= k < |ancestors| ==> !Decides(ancestors[k]) {
        assert !Decides(ancestors[0]);
        assert forall k :: 0 <= k < |ancestors| - 1 ==> ancestors[1..][k] == ancestors[k + 1];
      }
    }
  }

  /** The walk of `_get_enclosing_function_fqn`. */
  method EnclosingFunctionFqn(ancestors: seq<Ancestor>) returns (fqn: string)
    ensures fqn == EnclosingFqn(ancestors)
  {
    var i := 0;
    while i < |ancestors|
      invariant 0 <= i <= |ancestors|
      invariant EnclosingFqn(ancestors[i..]) == EnclosingFqn(ancestors)
    {
      assert ancestors[i..][1..] == ancestors[i + 1..];
      match ancestors[i] {
        case Definition(LookupFailed) =>
          return "unknown.scope.resolution.error";
        case Definition(Names(names)) =>
          if |names| > 0 {
            return names[0];
          }
        case OtherNode =>
      }
      i := i + 1;
    }
    fqn := "global.scope";
  }

  /** The finding `_handle_match` records for a match, or none when the part has no role. */
  function FindingFor(rule: Rule, config: PartConfig, site: MatchSite): (r: Option<Finding>)
    ensures r.Some? <==> Truthy(config.role)
    ensures r.Some? ==> r.value.role == config.role.value && r.value.correlationKey == rule.correlationKey
                        && r.value.ruleName == rule.ruleName && r.value.lineNumber == site.line
                        && r.value.matchTarget == config.matchTarget
    ensures r.Some? && config.matchTarget == Some("function_entry") ==>
              r.value.callerFqn == if config.methodFqn.Some? then config.methodFqn.value else "function_entry"
    ensures r.Some? && config.matchTarget != Some("function_entry") ==> r.value.callerFqn == EnclosingFqn(site.ancestors)
  {
    if !Truthy(config.role) then None
    else
      var targetFqn := if config.methodFqn.Some? then config.methodFqn.value else config.matchTarget.GetOr("");
      var callerFqn := if config.matchTarget == Some("function_entry") then targetFqn else EnclosingFqn(site.ancestors);
      Some(Finding(callerFqn, rule.correlationKey, rule.ruleName, config.role.value, site.line, config.matchTarget))
  }

  /** No finding is listed twice. */
  ghost predicate NoDuplicates(fs: seq<Finding>)
  {
    forall i, j :: 0 <= i < j < |fs| ==> fs[i] != fs[j]
  }

  /** The findings after one more match: appended only when new. */
  function Record(findings: seq<Finding>, f: Option<Finding>): (r: seq<Finding>)
    ensures NoDuplicates(findings) ==> NoDuplicates(r)
    ensures findings <= r && |r| <= |findings| + 1
    ensures f.Some? ==> f.value in r
  {
    if f.Some? && f.value !in findings then findings + [f.value] else findings
  }

  /** The findings after visiting one node: every firing matcher, in order, records its finding. */
  function AfterVisit(findings: seq<Finding>, entries: seq<MatcherEntry>, site: MatchSite,
                      matches: Matcher -> bool): (r: seq<Finding>)
    ensures NoDuplicates(findings) ==> NoDuplicates(r)
    ensures findings <= r
  {
    if |entries| == 0 then findings
    else
      var e := entries[|entries| - 1];
      var before := AfterVisit(findings, entries[..|entries| - 1], site, matches);
      if matches(e.2) then Record(before, FindingFor(e.0, e.1, site)) else before
  }

  /** A node the wrapper visits: where it sits, and which matchers fire on it. */
  datatype VisitedNode = VisitedNode(site: MatchSite, matches: Matcher -> bool)

  /** The findings a fresh visitor holds after visiting the nodes of one file in order. */
  function FileFindings(matchers: seq<MatcherEntry>, nodes: seq<VisitedNode>): (r: seq<Finding>)
    ensures NoDuplicates(r)
  {
    if |nodes| == 0 then []
    else
      var last := nodes[|nodes| - 1];
      AfterVisit(FileFindings(matchers, nodes[..|nodes| - 1]), matchers, last.site, last.matches)
  }

  /** A matcher that fires on a node yields its finding (when its part has a role). */
  predicate Fires(matchers: seq<MatcherEntry>, n: VisitedNode, f: Finding)
  {
    exists k :: 0 <= k < |matchers| && n.matches(matchers[k].2)
                && FindingFor(matchers[k].0, matchers[k].1, n.site) == Some(f)
  }

  lemma {:induction false} AfterVisitMembers(findings: seq<Finding>, entries: seq<MatcherEntry>, n: VisitedNode, f: Finding)
    ensures f in AfterVisit(findings, entries, n.site, n.matches) <==> f in findings || Fires(entries, n, f)
  {
    if |entries| > 0 {
      var init := entries[..|entries| - 1];
      var e := entries[|entries| - 1];
      AfterVisitMembers(findings, init, n, f);
      if Fires(init, n, f) {
        var k :| 0 <= k < |init| && n.matches(init[k].2) && FindingFor(init[k].0, init[k].1, n.site) == Some(f);
        assert entries[k] == init[k];
      }
      if Fires(entries, n, f) {
        var k :| 0 <= k < |entries| && n.matches(entries[k].2) && FindingFor(entries[k].0, entries[k].1, n.site) == Some(f);
        if k < |init| {
          assert init[k] == entries[k];
        }
      }
      if f in AfterVisit(findings, entries, n.site, n.matches) && f !in findings && !Fires(init, n, f) {
        assert n.matches(e.2) && FindingFor(e.0, e.1, n.site) == Some(f);
        assert entries[|entries| - 1] == e;
      }
    }
  }

  /** A file's findings are exactly those some matcher yields on some visited node. */
  lemma {:induction false} FileFindingsMembers(matchers: seq<MatcherEntry>, nodes: seq<VisitedNode>, f: Finding)
    ensures f in FileFindings(matchers, nodes) <==> exists i :: 0 <= i < |nodes| && Fires(matchers, nodes[i], f)
  {
    if |nodes| > 0 {
      var init := nodes[..|nodes| - 1];
      var last := nodes[|nodes| - 1];
      FileFindingsMembers(matchers, init, f);
      AfterVisitMembers(FileFindings(matchers, init), matchers, last, f);
      if exists i :: 0 <= i < |init| && Fires(matchers, init[i], f) {
        var i :| 0 <= i < |init| && Fires(matchers, init[i], f);
        assert nodes[i] == init[i];
      }
      if exists i :: 0 <= i < |nodes| && Fires(matchers, nodes[i], f) {
        var i :| 0 <= i < |nodes| && Fires(matchers, nodes[i], f);
        if i < |init| {
          assert init[i] == nodes[i];
        }
      }
    }
  }

  /** `DynamicBehaviorVisitor`: the matchers of the rules and the findings so far. */
  class DynamicBehaviorVisitor {
    var findings: seq<Finding>
    var matchers: seq<MatcherEntry>

    ghost predicate Valid()
      reads this
    {
      NoDuplicates(findings)
    }

    constructor (rules: seq<Rule>)
      ensures Valid()
      ensures findings == [] && matchers == MatchersOf(rules)
    {
      findings := [];
      var built: seq<MatcherEntry> := [];
      var i := 0;
      while i < |rules|
        invariant 0 <= i <= |rules|
        invariant built == MatchersOf(rules[..i])
      {
        var rule := rules[i];
        assert rules[..i + 1][..i] == rules[..i];
        if rule.ruleType == Some("producer_consumer") {
          var parts := [rule.producer, rule.consumer];
          var k := 0;
          ghost var start := built;
          while k < 2
            invariant 0 <= k <= 2
            invariant built == start + (if k == 0 then [] else PartMatchers(rule, rule.producer))
                                     + (if k <= 1 then [] else PartMatchers(rule, rule.consumer))
          {
            var part := parts[k];
            if part.Some? {
              var matcher := BuildMatcher(part.value);
              if matcher.Some? {
                built := built + [(rule, part.value, matcher.value)];
              }
            }
            k := k + 1;
          }
        }
        i := i + 1;
      }
      assert rules[..i] == rules;
      matchers := built;
    }

    /** `_handle_match`. */
    method HandleMatch(site: MatchSite, rule: Rule, config: PartConfig)
      requires Valid()
      modifies this
      ensures Valid()
      ensures matchers == old(matchers)
      ensures findings == Record(old(findings), FindingFor(rule, config, site))
    {
      var finding := FindingFor(rule, config, site);
      if finding.None? {
        return;
      }
      if finding.value !in findings {
        findings := findings + [finding.value];
      }
    }

    /** `on_visit`: every matcher that fires on the node handles the match. */
    method OnVisit(site: MatchSite, matches: Matcher -> bool)
      requires Valid()
      modifies this
      ensures Valid()
      ensures matchers == old(matchers)
      ensures findings == AfterVisit(old(findings), matchers, site, matches)
    {
      var i := 0;
      while i < |matchers|
        invariant 0 <= i <= |matchers|
        invariant Valid()
        invariant matchers == old(matchers)
        invariant findings == AfterVisit(old(findings), matchers[..i], site, matches)
      {
        var entry := matchers[i];
        assert matchers[..i + 1][..i] == matchers[..i];
        if matches(entry.2) {
          HandleMatch(site, entry.0, entry.1);
        }
        i := i + 1;
      }
      assert matchers[..i] == matchers;
    }
  }

  // ---------------------------------------------------------------------
  // the producer x consumer join
  // ---------------------------------------------------------------------

  type RuleKey = (Option<string>, Option<string>)

  datatype Groups = Groups(producers: seq<Finding>, consumers: seq<Finding>)

  function KeyOf(f: Finding): RuleKey
  {
    (f.ruleName, f.correlationKey)
  }

  /** The position of `key` in the grouping, or its length when absent. */
  function IndexOfKey(g: seq<(RuleKey, Groups)>, key: RuleKey): (i: nat)
    ensures i <= |g|
    ensures i < |g| ==> g[i].0 == key
    ensures forall j :: 0 <= j < i ==> g[j].0 != key
  {
    if |g| == 0 then 0
    else if g[0].0 == key then 0
    else 1 + IndexOfKey(g[1..], key)
  }

  /** One step of the grouping loop: open the key's group if new, then append by role. */
  function AddFinding(g: seq<(RuleKey, Groups)>, f: Finding): Result<seq<(RuleKey, Groups)>, string>
  {
    var i := IndexOfKey(g, KeyOf(f));
    var withKey := if i == |g| then g + [(KeyOf(f), Groups([], []))] else g;
    var groups := withKey[i].1;
    if f.role == "producer" then Success(withKey[i := (KeyOf(f), Groups(groups.producers + [f], groups.consumers))])
    else if f.role == "consumer" then Success(withKey[i := (KeyOf(f), Groups(groups.producers, groups.consumers + [f]))])
    else Failure(f.role)
  }

  /** `findings_by_rule_key`, in insertion order, or the role that raises `KeyError`. */
  function GroupFindings(fs: seq<Finding>): Result<seq<(RuleKey, Groups)>, string>
  {
    if |fs| == 0 then Success([])
    else match GroupFindings(fs[..|fs| - 1])
      case Failure(role) => Failure(role)
      case Success(g) => AddFinding(g, fs[|fs| - 1])
  }

  /** `{source, target, label, producer_info, consumer_info}` for one pair. */
  function MkLink(p: Finding, c: Finding): Link
  {
    Link(p.callerFqn, c.callerFqn, p.correlationKey, p, c)
  }

  /** Each producer with each consumer, producers outermost. */
  function Pairs(ps: seq<Finding>, cs: seq<Finding>): seq<Link>
  {
    if |ps| == 0 then [] else Pairs(ps[..|ps| - 1], cs) + seq(|cs|, k requires 0 <= k < |cs| => MkLink(ps[|ps| - 1], cs[k]))
  }

  function LinksOf(g: seq<(RuleKey, Groups)>): seq<Link>
  {
    if |g| == 0 then [] else LinksOf(g[..|g| - 1]) + Pairs(g[|g| - 1].1.producers, g[|g| - 1].1.consumers)
  }

  /** The link count: the sum over groups of producers times consumers. */
  function SumOfProducts(g: seq<(RuleKey, Groups)>): nat
  {
    if |g| == 0 then 0 else SumOfProducts(g[..|g| - 1]) + |g[|g| - 1].1.producers| * |g[|g| - 1].1.consumers|
  }

  /** The join of the collected findings. */
  function JoinFindings(fs: seq<Finding>): Analysis
  {
    match GroupFindings(fs)
    case Failure(role) => RoleKeyError(role)
    case Success(g) => Links(LinksOf(g))
  }

  /** The findings of every file whose analysis did not fail, in file order, each from a fresh visitor. */
  function Collected(matchers: seq<MatcherEntry>, files: seq<Option<seq<VisitedNode>>>): seq<Finding>
  {
    if |files| == 0 then []
    else
      var last := files[|files| - 1];
      Collected(matchers, files[..|files| - 1]) + (if last.Some? then FileFindings(matchers, last.value) else [])
  }

  lemma {:induction false} PairsMembers(ps: seq<Finding>, cs: seq<Finding>, l: Link)
    ensures l in Pairs(ps, cs) <==> exists p, c :: p in ps && c in cs && l == MkLink(p, c)
  {
    if |ps| > 0 {
      var init := ps[..|ps| - 1];
      var last := ps[|ps| - 1];
      PairsMembers(init, cs, l);
      assert ps == init + [last];
      var row := seq(|cs|, k requires 0 <= k < |cs| => MkLink(last, cs[k]));
      if l in row {
        var k :| 0 <= k < |cs| && row[k] == l;
        assert last in ps && cs[k] in cs;
      }
      if exists p, c :: p in ps && c in cs && l == MkLink(p, c) {
        var p, c :| p in ps && c in cs && l == MkLink(p, c);
        if p == last {
          var k :| 0 <= k < |cs| && cs[k] == c;
          assert row[k] == l;
        } else {
          assert p in init;
        }
      }
    }
  }

  lemma {:induction false} PairsCount(ps: seq<Finding>, cs: seq<Finding>)
    ensures |Pairs(ps, cs)| == |ps| * |cs|
  {
    if |ps| > 0 {
      PairsCount(ps[..|ps| - 1], cs);
    }
  }

  /** Every producer x consumer pair of every group gives one link, and nothing else does. */
  lemma {:induction false} LinksOfCount(g: seq<(RuleKey, Groups)>)
    ensures |LinksOf(g)| == SumOfProducts(g)
  {
    if |g| > 0 {
      LinksOfCount(g[..|g| - 1]);
      PairsCount(g[|g| - 1].1.producers, g[|g| - 1].1.consumers);
    }
  }

  lemma {:induction false} LinksOfMembers(g: seq<(RuleKey, Groups)>, l: Link)
    ensures l in LinksOf(g) <==>
              exists i, p, c :: 0 <= i < |g| && p in g[i].1.producers && c in g[i].1.consumers && l == MkLink(p, c)
  {
    if |g| > 0 {
      var init := g[..|g| - 1];
      var last := g[|g| - 1];
      LinksOfMembers(init, l);
      PairsMembers(last.1.producers, last.1.consumers, l);
      if exists i, p, c :: 0 <= i < |g| && p in g[i].1.producers && c in g[i].1.consumers && l == MkLink(p, c) {
        var i, p, c :| 0 <= i < |g| && p in g[i].1.producers && c in g[i].1.consumers && l == MkLink(p, c);
        if i < |g| - 1 {
          assert init[i] == g[i];
        }
      }
      if exists i, p, c :: 0 <= i < |init| && p in init[i].1.producers && c in init[i].1.consumers && l == MkLink(p, c) {
        var i, p, c :| 0 <= i < |init| && p in init[i].1.producers && c in init[i].1.consumers && l == MkLink(p, c);
        assert g[i] == init[i];
        assert 0 <= i < |g| && p in g[i].1.producers && c in g[i].1.consumers && l == MkLink(p, c);
      }
      if exists p, c :: p in last.1.producers && c in last.1.consumers && l == MkLink(p, c) {
        var p, c :| p in last.1.producers && c in last.1.consumers && l == MkLink(p, c);
        assert g[|g| - 1] == last;
      }
    }
  }

  /**
   * `g` groups `fs` exactly: keys are distinct and cover every finding, and
   * each group holds exactly the producers and the consumers of its key.
   */
  ghost predicate GroupsExactly(g: seq<(RuleKey, Groups)>, fs: seq<Finding>)
  {
    && (forall i, j :: 0 <= i < j < |g| ==> g[i].0 != g[j].0)
    && (forall f :: f in fs ==> exists i :: 0 <= i < |g| && g[i].0 == KeyOf(f))
    && (forall i, f :: 0 <= i < |g| ==>
          (f in g[i].1.producers <==> f in fs && KeyOf(f) == g[i].0 && f.role == "producer"))
    && (forall i, f :: 0 <= i < |g| ==>
          (f in g[i].1.consumers <==> f in fs && KeyOf(f) == g[i].0 && f.role == "consumer"))
  }

  lemma AddFindingExact(g: seq<(RuleKey, Groups)>, fs: seq<Finding>, f: Finding)
    requires GroupsExactly(g, fs)
    requires f.role == "producer" || f.role == "consumer"
    ensures AddFinding(g, f).Success?
    ensures GroupsExactly(AddFinding(g, f).value, fs + [f])
  {
    var fs' := fs + [f];
    assert forall x :: x in fs' <==> x in fs || x == f;
    var i := IndexOfKey(g, KeyOf(f));
    var withKey := if i == |g| then g + [(KeyOf(f), Groups([], []))] else g;
    var g' := AddFinding(g, f).value;
    assert |g'| == |withKey|;
    forall j, x | 0 <= j < |g'|
      ensures x in g'[j].1.producers <==> x in fs' && KeyOf(x) == g'[j].0 && x.role == "producer"
      ensures x in g'[j].1.consumers <==> x in fs' && KeyOf(x) == g'[j].0 && x.role == "consumer"
    {
      if j == |g| {
        assert i == |g|;
      }
    }
    forall x | x in fs' ensures exists j :: 0 <= j < |g'| && g'[j].0 == KeyOf(x) {
      if x == f {
        assert g'[i].0 == KeyOf(f);
      } else {
        var j :| 0 <= j < |g| && g[j].0 == KeyOf(x);
        assert g'[j].0 == KeyOf(x);
      }
    }
  }

  /** The grouping fails exactly on a role other than `producer` and `consumer`, and is otherwise exact. */
  lemma {:induction false} GroupFindingsExact(fs: seq<Finding>)
    ensures GroupFindings(fs).Failure? <==> exists f :: f in fs && f.role != "producer" && f.role != "consumer"
    ensures GroupFindings(fs).Success? ==> GroupsExactly(GroupFindings(fs).value, fs)
  {
    if |fs| > 0 {
      var init := fs[..|fs| - 1];
      var last := fs[|fs| - 1];
      GroupFindingsExact(init);
      assert fs == init + [last];
      assert forall x :: x in fs <==> x in init || x == last;
      if GroupFindings(init).Success? && (last.role == "producer" || last.role == "consumer") {
        AddFindingExact(GroupFindings(init).value, init, last);
      }
    }
  }

  /**
   * The join: a link for every producer and every consumer that share a rule
   * name and a correlation key, and no other; a bad role fails the whole run.
   */
  lemma JoinFindingsCorrect(fs: seq<Finding>)
    ensures JoinFindings(fs).RoleKeyError? <==> exists f :: f in fs && f.role != "producer" && f.role != "consumer"
    ensures JoinFindings(fs).Links? ==>
              forall l :: l in JoinFindings(fs).links <==>
                exists p, c :: p in fs && c in fs && p.role == "producer" && c.role == "consumer"
                               && KeyOf(p) == KeyOf(c) && l == MkLink(p, c)
    ensures JoinFindings(fs).Links? ==>
              |JoinFindings(fs).links| == SumOfProducts(GroupFindings(fs).value)
  {
    GroupFindingsExact(fs);
    if GroupFindings(fs).Success? {
      var g := GroupFindings(fs).value;
      LinksOfCount(g);
      forall l ensures l in LinksOf(g) <==>
                exists p, c :: p in fs && c in fs && p.role == "producer" && c.role == "consumer"
                               && KeyOf(p) == KeyOf(c) && l == MkLink(p, c)
      {
        LinksOfMembers(g, l);
        if exists p, c :: p in fs && c in fs && p.role == "producer" && c.role == "consumer"
                          && KeyOf(p) == KeyOf(c) && l == MkLink(p, c) {
          var p, c :| p in fs && c in fs && p.role == "producer" && c.role == "consumer"
                      && KeyOf(p) == KeyOf(c) && l == MkLink(p, c);
          var i :| 0 <= i < |g| && g[i].0 == KeyOf(p);
          assert p in g[i].1.producers && c in g[i].1.consumers;
        }
      }
    }
  }

  /** The grouping loop of `analyze_dynamic_behavior`. */
  method GroupByRuleKey(fs: seq<Finding>) returns (r: Result<seq<(RuleKey, Groups)>, string>)
    ensures r == GroupFindings(fs)
  {
    var g: seq<(RuleKey, Groups)> := [];
    var n := 0;
    while n < |fs|
      invariant 0 <= n <= |fs|
      invariant GroupFindings(fs[..n]) == Success(g)
    {
      var f := fs[n];
      assert fs[..n + 1][..n] == fs[..n];
      var key := KeyOf(f);
      var i := 0;
      while i < |g| && g[i].0 != key
        invariant 0 <= i <= |g|
        invariant forall j :: 0 <= j < i ==> g[j].0 != key
      {
        i := i + 1;
      }
      assert i == IndexOfKey(g, key) by { IndexOfKeyFirst(g, key, i); }
      if i == |g| {
        g := g + [(key, Groups([], []))];
      }
      var groups := g[i].1;
      if f.role == "producer" {
        g := g[i := (key, Groups(groups.producers + [f], groups.consumers))];
      } else if f.role == "consumer" {
        g := g[i := (key, Groups(groups.producers, groups.consumers + [f]))];
      } else {
        GroupFailurePersists(fs, n + 1);
        return Failure(f.role);
      }
      n := n + 1;
    }
    assert fs[..n] == fs;
    r := Success(g);
  }

  lemma IndexOfKeyFirst(g: seq<(RuleKey, Groups)>, key: RuleKey, i: nat)
    requires i <= |g| && (i < |g| ==> g[i].0 == key)
    requires forall j :: 0 <= j < i ==> g[j].0 != key
    ensures i == IndexOfKey(g, key)
  {
  }

  /** Once a prefix of the findings fails, the whole grouping fails with the same role. */
  lemma {:induction false} GroupFailurePersists(fs: seq<Finding>, n: nat)
    requires n <= |fs|
    requires GroupFindings(fs[..n]).Failure?
    ensures GroupFindings(fs) == GroupFindings(fs[..n])
    decreases |fs| - n
  {
    if n < |fs| {
      assert fs[..n + 1][..n] == fs[..n];
      GroupFailurePersists(fs, n + 1);
    } else {
      assert fs[..n] == fs;
    }
  }

  /** The link loop: producers outermost, then consumers, group by group. */
  method BuildLinks(g: seq<(RuleKey, Groups)>) returns (links: seq<Link>)
    ensures links == LinksOf(g)
  {
    links := [];
    var i := 0;
    while i < |g|
      invariant 0 <= i <= |g|
      invariant links == LinksOf(g[..i])
    {
      assert g[..i + 1][..i] == g[..i];
      links := AppendPairs(links, g[i].1.producers, g[i].1.consumers);
      i := i + 1;
    }
    assert g[..i] == g;
  }

  /** The two inner loops of the link loop, for one group: each producer with each consumer. */
  method AppendPairs(links: seq<Link>, ps: seq<Finding>, cs: seq<Finding>) returns (out: seq<Link>)
    ensures out == links + Pairs(ps, cs)
  {
    out := links;
    var a := 0;
    while a < |ps|
      invariant 0 <= a <= |ps|
      invariant out == links + Pairs(ps[..a], cs)
    {
      assert ps[..a + 1][..a] == ps[..a];
      ghost var row := seq(|cs|, k requires 0 <= k < |cs| => MkLink(ps[a], cs[k]));
      AppendAssoc(links, Pairs(ps[..a], cs), row);
      out := AppendConsumers(out, ps[a], cs);
      a := a + 1;
    }
    assert ps[..a] == ps;
  }

  /** The innermost loop: one producer with each consumer, in order. */
  method AppendConsumers(links: seq<Link>, p: Finding, cs: seq<Finding>) returns (out: seq<Link>)
    ensures out == links + seq(|cs|, k requires 0 <= k < |cs| => MkLink(p, cs[k]))
  {
    out := links;
    var b := 0;
    while b < |cs|
      invariant 0 <= b <= |cs|
      invariant out == links + seq(b, k requires 0 <= k < b => MkLink(p, cs[k]))
    {
      out := out + [MkLink(p, cs[b])];
      b := b + 1;
    }
  }

  /** One file's visit: a fresh visitor over the file's nodes, in order. */
  method AnalyzeFile(rules: seq<Rule>, nodes: seq<VisitedNode>) returns (findings: seq<Finding>)
    ensures findings == FileFindings(MatchersOf(rules), nodes)
  {
    var visitor := new DynamicBehaviorVisitor(rules);
    var i := 0;
    while i < |nodes|
      invariant 0 <= i <= |nodes|
      invariant visitor.Valid() && visitor.matchers == MatchersOf(rules)
      invariant visitor.findings == FileFindings(MatchersOf(rules), nodes[..i])
    {
      assert nodes[..i + 1][..i] == nodes[..i];
      visitor.OnVisit(nodes[i].site, nodes[i].matches);
      i := i + 1;
    }
    assert nodes[..i] == nodes;
    findings := visitor.findings;
  }

  /**
   * `analyze_dynamic_behavior`, given each file's visited nodes (`None` for
   * a file whose metadata or visit raised, which then contributes nothing).
   */
  method AnalyzeDynamicBehavior(rules: seq<Rule>, repoManagerOk: bool, files: seq<Option<seq<VisitedNode>>>)
    returns (a: Analysis)
    ensures |rules| == 0 ==> a == Links([])
    ensures |rules| > 0 && !repoManagerOk ==> a == NothingAnalyzed
    ensures |rules| > 0 && repoManagerOk ==> a == JoinFindings(Collected(MatchersOf(rules), files))
  {
    if |rules| == 0 {
      return Links([]);
    }
    if !repoManagerOk {
      return NothingAnalyzed;
    }
    var allFindings: seq<Finding> := [];
    var i := 0;
    while i < |files|
      invariant 0 <= i <= |files|
      invariant allFindings == Collected(MatchersOf(rules), files[..i])
    {
      assert files[..i + 1][..i] == files[..i];
      if files[i].Some? {
        var fileFindings := AnalyzeFile(rules, files[i].value);
        allFindings := allFindings + fileFindings;
      }
      i := i + 1;
    }
    assert files[..i] == files;
    var grouped := GroupByRuleKey(allFindings);
    if grouped.Failure? {
      return RoleKeyError(grouped.error);
    }
    var links := BuildLinks(grouped.value);
    a := Links(links);
  }
}
