/**
 * The ecosystem analyzer (intelligence/ecosystem_analyzer.py): entry points
 * declared in `pyproject.toml`, the framework the project is built on, and
 * that framework's bonus-score table. The parsed toml data and the rules
 * are inputs; `None` stands for a missing or undecodable `pyproject.toml`.
 */
module EcosystemAnalyzer {
  import opened Wrappers
  import opened Strings

  // ---------------------------------------------------------------------
  // entry-point strings
  // ---------------------------------------------------------------------

  /** The index of the first `c` in `s`. */
  function FirstIndexOf(s: string, c: char): (i: nat)
    requires c in s
    ensures i < |s| && s[i] == c && c !in s[..i]
  {
    if s[0] == c then 0
    else
      assert c in s[1..] by {
        var k :| 0 <= k < |s| && s[k] == c;
        assert s[1..][k - 1] == c;
      }
      var i := FirstIndexOf(s[1..], c);
      assert s[..i + 1] == [s[0]] + s[1..][..i];
      i + 1
  }

  /** `s.split(c, 1)` when `c in s`: the text before the first `c`, and the text after it. */
  function SplitOnce(s: string, c: char): (r: (string, string))
    requires c in s
    ensures c !in r.0 && r.0 + [c] + r.1 == s
  {
    var i := FirstIndexOf(s, c);
    assert s[..i] + [c] + s[i + 1..] == s;
    (s[..i], s[i + 1..])
  }

  /** `BeforeFirst` on a one-character separator leaves no occurrence of it. */
  lemma BeforeFirstChar(s: string, c: char)
    ensures c !in BeforeFirst(s, [c])
  {
    var r := BeforeFirst(s, [c]);
    if c in r {
      var k :| 0 <= k < |r| && r[k] == c;
      assert r[k..][..1] == [c];
      match Find(s, [c])
      case Some(i) =>
        assert s[k..][..1] == [c];
        assert OccursAt(s, [c], k);
      case None =>
        assert s[k..][..1] == [c];
        assert OccursAt(s, [c], k);
    }
  }

  /** The object part of an entry string: cut at its first `(`, whitespace-stripped. */
  function ObjectPart(afterColon: string): (r: string)
    ensures '(' !in r
    ensures r == [] || (!IsSpace(r[0]) && !IsSpace(r[|r| - 1]))
  {
    BeforeFirstChar(afterColon, '(');
    StripKeeps(BeforeFirst(afterColon, "("), '(');
    Strip(BeforeFirst(afterColon, "("))
  }

  /**
   * The name an entry string `module:object` declares: `module.object`, or
   * just `module` when the object part is empty; `None` without a `:`.
   */
  function EntrypointFqn(entryStr: string): (r: Option<string>)
    ensures r.None? <==> ':' !in entryStr
    ensures r.Some? ==> var modulePath := SplitOnce(entryStr, ':').0;
                        modulePath <= r.value
                        && (r.value == modulePath
                            || (r.value[|modulePath|] == '.' && ObjectPart(SplitOnce(entryStr, ':').1) != ""
                                && r.value[|modulePath| + 1..] == ObjectPart(SplitOnce(entryStr, ':').1)))
    ensures r.Some? ==> (r.value == SplitOnce(entryStr, ':').0 <==> ObjectPart(SplitOnce(entryStr, ':').1) == "")
  {
    if ':' !in entryStr then None
    else
      var (modulePath, objectPath) := SplitOnce(entryStr, ':');
      var objectPart := ObjectPart(objectPath);
      Some(if objectPart != "" then modulePath + "." + objectPart else modulePath)
  }

  /** Records a declared name: a new name gets `1.0`; an existing one is never overwritten. */
  function AddName(entrypoints: map<string, real>, fqn: string): (r: map<string, real>)
    ensures r.Keys == entrypoints.Keys + {fqn}
    ensures forall k :: k in entrypoints ==> r[k] == entrypoints[k]
    ensures fqn !in entrypoints ==> r[fqn] == 1.0
  {
    if fqn !in entrypoints then entrypoints[fqn := 1.0] else entrypoints
  }

  /** `_parse_entrypoint_str`: an entry string without a `:` changes nothing. */
  function AddEntrypoint(entrypoints: map<string, real>, entryStr: string): (r: map<string, real>)
    ensures ':' !in entryStr ==> r == entrypoints
  {
    match EntrypointFqn(entryStr)
    case None => entrypoints
    case Some(fqn) => AddName(entrypoints, fqn)
  }

  /** The entry strings parsed in order. */
  function AddAll(entrypoints: map<string, real>, entryStrs: seq<string>): map<string, real>
  {
    if |entryStrs| == 0 then entrypoints
    else AddEntrypoint(AddAll(entrypoints, entryStrs[..|entryStrs| - 1]), entryStrs[|entryStrs| - 1])
  }

  /** The values `f` gives the elements of `xs`, leaving out `None`. */
  function Collect<T, U>(xs: seq<T>, f: T -> Option<U>): set<U>
  {
    if |xs| == 0 then {}
    else
      var last := f(xs[|xs| - 1]);
      Collect(xs[..|xs| - 1], f) + (if last.Some? then {last.value} else {})
  }

  lemma {:induction false} CollectMembers<T, U>(xs: seq<T>, f: T -> Option<U>, k: U)
    ensures k in Collect(xs, f) <==> exists i :: 0 <= i < |xs| && f(xs[i]) == Some(k)
  {
    if |xs| > 0 {
      var init := xs[..|xs| - 1];
      CollectMembers(init, f, k);
      if exists i :: 0 <= i < |xs| && f(xs[i]) == Some(k) {
        var i :| 0 <= i < |xs| && f(xs[i]) == Some(k);
        if i < |init| {
          assert init[i] == xs[i];
        }
      }
      if exists i :: 0 <= i < |init| && f(init[i]) == Some(k) {
        var i :| 0 <= i < |init| && f(init[i]) == Some(k);
        assert xs[i] == init[i];
      }
    }
  }

  /** Parsing entry strings into an empty table declares exactly their names, each with `1.0`. */
  lemma {:induction false} AddAllDeclares(entryStrs: seq<string>)
    ensures AddAll(map[], entryStrs).Keys == Collect(entryStrs, EntrypointFqn)
    ensures forall k :: k in AddAll(map[], entryStrs) ==> AddAll(map[], entryStrs)[k] == 1.0
  {
    if |entryStrs| > 0 {
      AddAllDeclares(entryStrs[..|entryStrs| - 1]);
    }
  }

  /** A name is declared exactly when some entry string with a `:` names it. */
  lemma DeclaredMembers(entryStrs: seq<string>, k: string)
    ensures k in AddAll(map[], entryStrs) <==> exists i :: 0 <= i < |entryStrs| && EntrypointFqn(entryStrs[i]) == Some(k)
  {
    AddAllDeclares(entryStrs);
    CollectMembers(entryStrs, EntrypointFqn, k);
  }

  /** Parsing two lists of entry strings one after the other is parsing their concatenation. */
  lemma {:induction false} AddAllAppend(entrypoints: map<string, real>, a: seq<string>, b: seq<string>)
    ensures AddAll(AddAll(entrypoints, a), b) == AddAll(entrypoints, a + b)
    decreases |b|
  {
    if |b| == 0 {
      assert a + b == a;
    } else {
      assert (a + b)[..|a + b| - 1] == a + b[..|b| - 1];
      AddAllAppend(entrypoints, a, b[..|b| - 1]);
    }
  }

  /** The loop over one table of entry strings. */
  method ParseEntries(entrypoints: map<string, real>, entryStrs: seq<string>) returns (updated: map<string, real>)
    ensures updated == AddAll(entrypoints, entryStrs)
  {
    updated := entrypoints;
    var k := 0;
    while k < |entryStrs|
      invariant 0 <= k <= |entryStrs|
      invariant updated == AddAll(entrypoints, entryStrs[..k])
    {
      assert entryStrs[..k + 1][..k] == entryStrs[..k];
      updated := AddEntrypoint(updated, entryStrs[k]);
      k := k + 1;
    }
    assert entryStrs[..k] == entryStrs;
  }

  /** The `[project]` table of a decoded `pyproject.toml`: its name, the scripts' and the entry-point groups' strings. */
  datatype ProjectTable = ProjectTable(name: Option<string>, scripts: seq<string>, entryPointGroups: seq<seq<string>>)

  /** All entry strings of the entry-point groups, group by group. */
  function Flatten(groups: seq<seq<string>>): seq<string>
  {
    if |groups| == 0 then [] else Flatten(groups[..|groups| - 1]) + groups[|groups| - 1]
  }

  /** `get_standard_entrypoints`: the scripts first, then the entry-point groups; `{}` without a decodable file. */
  method GetStandardEntrypoints(pyproject: Option<ProjectTable>) returns (entrypoints: map<string, real>)
    ensures pyproject.None? ==> entrypoints == map[]
    ensures pyproject.Some? ==>
              entrypoints == AddAll(map[], pyproject.value.scripts + Flatten(pyproject.value.entryPointGroups))
  {
    entrypoints := map[];
    if pyproject.None? {
      return;
    }
    var project := pyproject.value;
    entrypoints := ParseEntries(entrypoints, project.scripts);
    assert project.scripts + Flatten(project.entryPointGroups[..0]) == project.scripts;
    var g := 0;
    while g < |project.entryPointGroups|
      invariant 0 <= g <= |project.entryPointGroups|
      invariant entrypoints == AddAll(map[], project.scripts + Flatten(project.entryPointGroups[..g]))
    {
      assert project.entryPointGroups[..g + 1][..g] == project.entryPointGroups[..g];
      AddAllAppend(map[], project.scripts + Flatten(project.entryPointGroups[..g]), project.entryPointGroups[g]);
      entrypoints := ParseEntries(entrypoints, project.entryPointGroups[g]);
      assert project.scripts + Flatten(project.entryPointGroups[..g + 1])
             == project.scripts + Flatten(project.entryPointGroups[..g]) + project.entryPointGroups[g];
      g := g + 1;
    }
    assert project.entryPointGroups[..g] == project.entryPointGroups;
  }

  // ---------------------------------------------------------------------
  // framework identification
  // ---------------------------------------------------------------------

  datatype BonusRule = BonusRule(pattern: string, score: real)

  /** A framework's rules: its `project_name` (`""` when absent) and its `bonus_points`. */
  datatype FrameworkRule = FrameworkRule(projectName: string, bonusPoints: seq<BonusRule>)

  /** The framework's `project_name` equals the project's name, ignoring case. */
  predicate NameMatch(rule: FrameworkRule, projectName: Option<string>)
  {
    Truthy(projectName) && Lower(rule.projectName) == Lower(projectName.value)
  }

  /** The top-level package of every import of every module. */
  function TopLevelImports(moduleImportGraph: map<string, set<string>>): set<string>
  {
    set m, imp | m in moduleImportGraph && imp in moduleImportGraph[m] :: Split(imp, '.')[0]
  }

  /** `id` is the first framework, in rule order, satisfying the name test. */
  ghost predicate FirstByName(rules: seq<(string, FrameworkRule)>, projectName: Option<string>, id: string)
  {
    exists i :: 0 <= i < |rules| && rules[i].0 == id && NameMatch(rules[i].1, projectName)
                && forall j :: 0 <= j < i ==> !NameMatch(rules[j].1, projectName)
  }

  /** `id` is the first framework, in rule order, whose lowercased `project_name` is a top-level import. */
  ghost predicate FirstByImport(rules: seq<(string, FrameworkRule)>, imports: set<string>, id: string)
  {
    exists i :: 0 <= i < |rules| && rules[i].0 == id && Lower(rules[i].1.projectName) in imports
                && forall j :: 0 <= j < i ==> Lower(rules[j].1.projectName) !in imports
  }

  /**
   * `_identify_framework`: the project's own name decides first; otherwise the
   * imports do; otherwise no framework.
   */
  method IdentifyFramework(projectName: Option<string>, moduleImportGraph: map<string, set<string>>,
                           frameworkRules: seq<(string, FrameworkRule)>) returns (r: Option<string>)
    ensures (exists i :: 0 <= i < |frameworkRules| && NameMatch(frameworkRules[i].1, projectName)) ==>
              r.Some? && FirstByName(frameworkRules, projectName, r.value)
    ensures (forall i :: 0 <= i < |frameworkRules| ==> !NameMatch(frameworkRules[i].1, projectName)) ==>
              (r.Some? <==> exists i :: 0 <= i < |frameworkRules|
                                         && Lower(frameworkRules[i].1.projectName) in TopLevelImports(moduleImportGraph))
              && (r.Some? ==> FirstByImport(frameworkRules, TopLevelImports(moduleImportGraph), r.value))
  {
    if Truthy(projectName) {
      var k := 0;
      while k < |frameworkRules|
        invariant 0 <= k <= |frameworkRules|
        invariant forall j :: 0 <= j < k ==> !NameMatch(frameworkRules[j].1, projectName)
      {
        if Lower(frameworkRules[k].1.projectName) == Lower(projectName.value) {
          return Some(frameworkRules[k].0);
        }
        k := k + 1;
      }
    }
    var allImports := TopLevelImports(moduleImportGraph);
    var k := 0;
    while k < |frameworkRules|
      invariant 0 <= k <= |frameworkRules|
      invariant forall j :: 0 <= j < k ==> Lower(frameworkRules[j].1.projectName) !in allImports
    {
      var keyword := Lower(frameworkRules[k].1.projectName);
      if keyword in allImports {
        return Some(frameworkRules[k].0);
      }
      k := k + 1;
    }
    return None;
  }

  // ---------------------------------------------------------------------
  // bonus scores
  // ---------------------------------------------------------------------

  /** `framework_rules.get(id, {})`: the rules of framework `id`, the first entry with that key. */
  function RulesOf(frameworkRules: seq<(string, FrameworkRule)>, id: string): (r: Option<FrameworkRule>)
    ensures r.Some? ==> exists i :: 0 <= i < |frameworkRules| && frameworkRules[i] == (id, r.value)
    ensures r.None? ==> forall i :: 0 <= i < |frameworkRules| ==> frameworkRules[i].0 != id
  {
    if |frameworkRules| == 0 then None
    else if frameworkRules[0].0 == id then Some(frameworkRules[0].1)
    else
      var r := RulesOf(frameworkRules[1..], id);
      assert r.Some? ==> exists i :: 0 <= i < |frameworkRules| && frameworkRules[i] == (id, r.value) by {
        if r.Some? {
          var i :| 0 <= i < |frameworkRules[1..]| && frameworkRules[1..][i] == (id, r.value);
          assert frameworkRules[i + 1] == (id, r.value);
        }
      }
      assert r.None? ==> forall i :: 0 <= i < |frameworkRules| ==> frameworkRules[i].0 != id by {
        if r.None? {
          forall i | 1 <= i < |frameworkRules| ensures frameworkRules[i].0 != id {
            assert frameworkRules[1..][i - 1] == frameworkRules[i];
          }
        }
      }
      r
  }

  /** The dict comprehension over the bonus rules: a later duplicate pattern overwrites. */
  function BonusTable(bonusPoints: seq<BonusRule>): map<string, real>
  {
    if |bonusPoints| == 0 then map[]
    else
      var last := bonusPoints[|bonusPoints| - 1];
      BonusTable(bonusPoints[..|bonusPoints| - 1])[last.pattern := last.score]
  }

  /** Every pattern has an entry holding the score of its last rule, and nothing else has one. */
  lemma {:induction false} BonusTableLastWins(bonusPoints: seq<BonusRule>, i: nat)
    requires i < |bonusPoints|
    requires forall j :: i < j < |bonusPoints| ==> bonusPoints[j].pattern != bonusPoints[i].pattern
    ensures bonusPoints[i].pattern in BonusTable(bonusPoints)
    ensures BonusTable(bonusPoints)[bonusPoints[i].pattern] == bonusPoints[i].score
  {
    if i < |bonusPoints| - 1 {
      var init := bonusPoints[..|bonusPoints| - 1];
      forall j | i < j < |init| ensures init[j].pattern != init[i].pattern {
        assert init[j] == bonusPoints[j];
      }
      BonusTableLastWins(init, i);
    }
  }

  /** The table has an entry exactly for the patterns of the rules. */
  lemma {:induction false} BonusTableKeys(bonusPoints: seq<BonusRule>, p: string)
    ensures p in BonusTable(bonusPoints) <==> exists i :: 0 <= i < |bonusPoints| && bonusPoints[i].pattern == p
  {
    if |bonusPoints| > 0 {
      var init := bonusPoints[..|bonusPoints| - 1];
      BonusTableKeys(init, p);
      if exists i :: 0 <= i < |bonusPoints| && bonusPoints[i].pattern == p {
        var i :| 0 <= i < |bonusPoints| && bonusPoints[i].pattern == p;
        if i < |init| {
          assert init[i] == bonusPoints[i];
        }
      }
      if exists i :: 0 <= i < |init| && init[i].pattern == p {
        var i :| 0 <= i < |init| && init[i].pattern == p;
        assert bonusPoints[i] == init[i];
      }
    }
  }

  /** `get_framework_bonus_scores`: empty without an identified framework; else the framework's bonus table. */
  function FrameworkBonusScores(identifiedFramework: Option<string>, frameworkRules: seq<(string, FrameworkRule)>)
    : (r: map<string, real>)
    ensures !Truthy(identifiedFramework) ==> r == map[]
    ensures Truthy(identifiedFramework) && RulesOf(frameworkRules, identifiedFramework.value).None? ==> r == map[]
    ensures Truthy(identifiedFramework) && RulesOf(frameworkRules, identifiedFramework.value).Some? ==>
              r == BonusTable(RulesOf(frameworkRules, identifiedFramework.value).value.bonusPoints)
  {
    if !Truthy(identifiedFramework) then map[]
    else
      match RulesOf(frameworkRules, identifiedFramework.value)
      case None => map[]
      case Some(rules) => BonusTable(rules.bonusPoints)
  }
}
