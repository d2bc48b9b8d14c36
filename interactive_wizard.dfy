/**
 * The interactive wizard (core/interactive_wizard.py): for a large project it
 * combines the heuristic, hub, framework and entry-point scores of every
 * candidate, recommends at most five candidates from distinct modules in
 * order of score, and maps the user's menu choice to configuration updates
 * and an action. The scores, the HITS hub values and the user's input are
 * inputs; `fnmatch` is the parameter `glob`.
 */
module InteractiveWizard {
  import opened Wrappers
  import opened Strings
  import opened Sorting
  import ConfigLoader

  /** The `weights` section; an absent weight is `1.0`. */
  datatype Weights = Weights(heuristic: Option<real>, hub: Option<real>, entryPoint: Option<real>)

  /**
   * What `run` works from: the heuristic scores, the standard entry points,
   * the definition-to-module map, the HITS hub value of each module (`None`
   * when its scores have no `hub`), the framework bonus table's items, the
   * weights and the entry-point bonus.
   */
  datatype WizardInputs = WizardInputs(
    heuristicScores: map<string, real>,
    standardEntrypoints: map<string, real>,
    definitionToModule: map<string, string>,
    hitsHub: map<string, Option<real>>,
    frameworkBonus: seq<(string, real)>,
    weights: Weights,
    entryPointsBonus: real)

  /** `set(heuristic_scores) | set(standard_entrypoints)`. */
  function Candidates(inputs: WizardInputs): set<string>
  {
    inputs.heuristicScores.Keys + inputs.standardEntrypoints.Keys
  }

  /** The mapped module is missing or empty, and the candidate is itself a module with HITS scores. */
  predicate IsModuleItself(fqn: string, inputs: WizardInputs)
  {
    (fqn !in inputs.definitionToModule || inputs.definitionToModule[fqn] == "") && fqn in inputs.hitsHub
  }

  /** The candidate's module: its mapped module, else itself when it has HITS scores, else `""`. */
  function ModuleOf(fqn: string, inputs: WizardInputs): (r: string)
    ensures IsModuleItself(fqn, inputs) ==> r == fqn
    ensures !IsModuleItself(fqn, inputs) && r != "" ==> fqn in inputs.definitionToModule && r == inputs.definitionToModule[fqn]
  {
    if IsModuleItself(fqn, inputs) then fqn
    else if fqn in inputs.definitionToModule then inputs.definitionToModule[fqn]
    else ""
  }

  /** The module's hub value times 100, or `0.0`. */
  function HubScore(fqn: string, inputs: WizardInputs): real
  {
    var m := ModuleOf(fqn, inputs);
    if m != "" && m in inputs.hitsHub then inputs.hitsHub[m].GetOr(0.0) * 100.0 else 0.0
  }

  /** The sum of the bonuses of every framework pattern the candidate matches. */
  function FrameworkSum(fqn: string, bonus: seq<(string, real)>, glob: (string, string) -> bool): real
  {
    if |bonus| == 0 then 0.0
    else
      var last := bonus[|bonus| - 1];
      FrameworkSum(fqn, bonus[..|bonus| - 1], glob) + (if glob(fqn, last.0) then last.1 else 0.0)
  }

  /**
   * The combined score: the heuristic score, the hub score, the framework
   * score and the entry-point score, each weighted; the framework score
   * takes the entry-point weight.
   */
  function CombinedScore(fqn: string, inputs: WizardInputs, glob: (string, string) -> bool): (r: real)
    ensures inputs.weights == Weights(None, None, None) ==>
              r == (if fqn in inputs.heuristicScores then inputs.heuristicScores[fqn] else 0.0) + HubScore(fqn, inputs)
                   + FrameworkSum(fqn, inputs.frameworkBonus, glob)
                   + (if fqn in inputs.standardEntrypoints then inputs.entryPointsBonus else 0.0)
    ensures inputs.weights == Weights(Some(0.0), Some(0.0), Some(0.0)) ==> r == 0.0
  {
    var w := inputs.weights;
    var h := if fqn in inputs.heuristicScores then inputs.heuristicScores[fqn] else 0.0;
    var entry := if fqn in inputs.standardEntrypoints then inputs.entryPointsBonus else 0.0;
    h * w.heuristic.GetOr(1.0) + HubScore(fqn, inputs) * w.hub.GetOr(1.0)
    + FrameworkSum(fqn, inputs.frameworkBonus, glob) * w.entryPoint.GetOr(1.0)
    + entry * w.entryPoint.GetOr(1.0)
  }

  /** A candidate that matches no bonus pattern gets no framework score. */
  lemma {:induction false} FrameworkSumNoMatch(fqn: string, bonus: seq<(string, real)>, glob: (string, string) -> bool)
    requires forall i :: 0 <= i < |bonus| ==> !glob(fqn, bonus[i].0)
    ensures FrameworkSum(fqn, bonus, glob) == 0.0
  {
    if |bonus| > 0 {
      FrameworkSumNoMatch(fqn, bonus[..|bonus| - 1], glob);
    }
  }

  /** The loop over the framework bonus table. */
  method FrameworkScore(fqn: string, bonus: seq<(string, real)>, glob: (string, string) -> bool) returns (score: real)
    ensures score == FrameworkSum(fqn, bonus, glob)
  {
    score := 0.0;
    var k := 0;
    while k < |bonus|
      invariant 0 <= k <= |bonus|
      invariant score == FrameworkSum(fqn, bonus[..k], glob)
    {
      assert bonus[..k + 1][..k] == bonus[..k];
      if glob(fqn, bonus[k].0) {
        score := score + bonus[k].1;
      }
      k := k + 1;
    }
    assert bonus[..k] == bonus;
  }

  /** The candidate occurs in the item list. */
  ghost predicate Listed(items: seq<(string, real)>, fqn: string)
  {
    exists i :: 0 <= i < |items| && items[i].0 == fqn
  }

  /**
   * The loop filling `combined_scores`, returned as its items in insertion
   * order: each candidate once, with its combined score.
   */
  method CombineScores(inputs: WizardInputs, glob: (string, string) -> bool) returns (items: seq<(string, real)>)
    ensures forall i, j :: 0 <= i < j < |items| ==> items[i].0 != items[j].0
    ensures forall fqn :: Listed(items, fqn) <==> fqn in Candidates(inputs)
    ensures forall i :: 0 <= i < |items| ==> items[i].1 == CombinedScore(items[i].0, inputs, glob)
  {
    items := [];
    var candidates := Candidates(inputs);
    var todo := candidates;
    while todo != {}
      invariant todo <= candidates
      invariant forall i, j :: 0 <= i < j < |items| ==> items[i].0 != items[j].0
      invariant forall i :: 0 <= i < |items| ==> items[i].0 in candidates && items[i].0 !in todo
      invariant forall fqn :: fqn in candidates && fqn !in todo ==> Listed(items, fqn)
      invariant forall i :: 0 <= i < |items| ==> items[i].1 == CombinedScore(items[i].0, inputs, glob)
      decreases |todo|
    {
      var fqn :| fqn in todo;
      var totalScore := ScoreCandidate(fqn, inputs, glob);
      ListedAppend(items, (fqn, totalScore));
      ScoredAppend(items, (fqn, totalScore), todo, inputs, glob);
      items := items + [(fqn, totalScore)];
      todo := todo - {fqn};
    }
  }

  /** Appending a not-yet-scored candidate with its score keeps the names distinct, done and scored. */
  lemma ScoredAppend(items: seq<(string, real)>, x: (string, real), todo: set<string>, inputs: WizardInputs,
                     glob: (string, string) -> bool)
    requires x.0 in todo && x.1 == CombinedScore(x.0, inputs, glob)
    requires forall i, j :: 0 <= i < j < |items| ==> items[i].0 != items[j].0
    requires forall i :: 0 <= i < |items| ==> items[i].0 !in todo
    requires forall i :: 0 <= i < |items| ==> items[i].1 == CombinedScore(items[i].0, inputs, glob)
    ensures forall i, j :: 0 <= i < j < |items + [x]| ==> (items + [x])[i].0 != (items + [x])[j].0
    ensures forall i :: 0 <= i < |items + [x]| ==> (items + [x])[i].0 !in todo - {x.0}
    ensures forall i :: 0 <= i < |items + [x]| ==>
              (items + [x])[i].1 == CombinedScore((items + [x])[i].0, inputs, glob)
  {
    var next := items + [x];
    forall i | 0 <= i < |next| ensures next[i] == if i < |items| then items[i] else x {
    }
  }

  /** Appending an item lists its name and keeps every listed name. */
  lemma ListedAppend(items: seq<(string, real)>, x: (string, real))
    ensures forall fqn :: Listed(items + [x], fqn) <==> Listed(items, fqn) || fqn == x.0
  {
    var next := items + [x];
    assert next[|items|] == x;
    forall fqn ensures Listed(next, fqn) <==> Listed(items, fqn) || fqn == x.0 {
      if Listed(items, fqn) {
        var i :| 0 <= i < |items| && items[i].0 == fqn;
        assert next[i] == items[i];
      }
      if Listed(next, fqn) {
        var i :| 0 <= i < |next| && next[i].0 == fqn;
        if i < |items| {
          assert next[i] == items[i];
        }
      }
    }
  }

  /** The body of the candidate loop: one candidate's weighted score. */
  method ScoreCandidate(fqn: string, inputs: WizardInputs, glob: (string, string) -> bool) returns (totalScore: real)
    ensures totalScore == CombinedScore(fqn, inputs, glob)
  {
    var hScore := if fqn in inputs.heuristicScores then inputs.heuristicScores[fqn] else 0.0;
    var modulePath := if fqn in inputs.definitionToModule then inputs.definitionToModule[fqn] else "";
    if modulePath == "" && fqn in inputs.hitsHub {
      modulePath := fqn;
    }
    assert modulePath == ModuleOf(fqn, inputs);
    var hubScore := 0.0;
    if modulePath != "" && modulePath in inputs.hitsHub {
      hubScore := inputs.hitsHub[modulePath].GetOr(0.0) * 100.0;
    }
    var frameworkScore := FrameworkScore(fqn, inputs.frameworkBonus, glob);
    var entryPointScore := 0.0;
    if fqn in inputs.standardEntrypoints {
      entryPointScore := inputs.entryPointsBonus;
    }
    var w := inputs.weights;
    totalScore := hScore * w.heuristic.GetOr(1.0) + hubScore * w.hub.GetOr(1.0)
                  + frameworkScore * w.entryPoint.GetOr(1.0) + entryPointScore * w.entryPoint.GetOr(1.0);
  }

  // ---------------------------------------------------------------------
  // the top-5 selection
  // ---------------------------------------------------------------------

  /** The order of `sorted(..., key=score, reverse=True)`: higher scores first. */
  predicate ScoreGe(a: (string, real), b: (string, real))
  {
    a.1 >= b.1
  }

  lemma ScoreGePreorder()
    ensures TotalPreorder(ScoreGe)
  {
  }

  /** Some definition name starts with the candidate. */
  predicate DefinesUnder(fqn: string, inputs: WizardInputs)
  {
    exists d :: d in inputs.definitionToModule && fqn <= d
  }

  /** The candidate may be recommended: it has a module, and a module-as-itself has some definition under it. */
  predicate Eligible(fqn: string, inputs: WizardInputs)
  {
    ModuleOf(fqn, inputs) != "" && (IsModuleItself(fqn, inputs) ==> DefinesUnder(fqn, inputs))
  }

  /** Some recommendation comes from module `m`. */
  ghost predicate Seen(recs: seq<(string, real)>, m: string, inputs: WizardInputs)
  {
    exists i :: 0 <= i < |recs| && ModuleOf(recs[i].0, inputs) == m
  }

  /** The candidates picked from `cands`, in order, without the five-item limit: the first eligible one of each module. */
  ghost function Picks(cands: seq<(string, real)>, inputs: WizardInputs): (r: seq<(string, real)>)
    ensures |r| <= |cands|
    ensures forall i :: 0 <= i < |r| ==> Eligible(r[i].0, inputs)
  {
    if |cands| == 0 then []
    else
      var picked := Picks(cands[..|cands| - 1], inputs);
      var c := cands[|cands| - 1];
      if Eligible(c.0, inputs) && !Seen(picked, ModuleOf(c.0, inputs), inputs) then picked + [c] else picked
  }

  function Take<T>(s: seq<T>, n: nat): (r: seq<T>)
    ensures |r| <= n && r <= s
    ensures |s| <= n ==> r == s
  {
    if |s| <= n then s else s[..n]
  }

  /** Picking from a prefix gives a prefix of the picks. */
  lemma {:induction false} PicksPrefix(cands: seq<(string, real)>, k: nat, inputs: WizardInputs)
    requires k <= |cands|
    ensures Picks(cands[..k], inputs) <= Picks(cands, inputs)
    decreases |cands|
  {
    if k < |cands| {
      var init := cands[..|cands| - 1];
      assert cands[..k] == init[..k];
      PicksPrefix(init, k, inputs);
    } else {
      assert cands[..k] == cands;
    }
  }

  /** Every pick is an eligible candidate. */
  lemma {:induction false} PicksAreEligible(cands: seq<(string, real)>, inputs: WizardInputs)
    ensures forall i :: 0 <= i < |Picks(cands, inputs)| ==>
              Picks(cands, inputs)[i] in cands && Eligible(Picks(cands, inputs)[i].0, inputs)
  {
    if |cands| > 0 {
      var init := cands[..|cands| - 1];
      PicksAreEligible(init, inputs);
      forall i | 0 <= i < |Picks(init, inputs)| ensures Picks(init, inputs)[i] in cands {
        var x := Picks(init, inputs)[i];
        var j :| 0 <= j < |init| && init[j] == x;
        assert cands[j] == x;
      }
    }
  }

  /** No two picks share a module. */
  lemma {:induction false} PicksDistinctModules(cands: seq<(string, real)>, inputs: WizardInputs)
    ensures forall i, j :: 0 <= i < j < |Picks(cands, inputs)| ==>
              ModuleOf(Picks(cands, inputs)[i].0, inputs) != ModuleOf(Picks(cands, inputs)[j].0, inputs)
  {
    if |cands| > 0 {
      var init := cands[..|cands| - 1];
      PicksDistinctModules(init, inputs);
      var picked := Picks(init, inputs);
      var c := cands[|cands| - 1];
      if Eligible(c.0, inputs) && !Seen(picked, ModuleOf(c.0, inputs), inputs) {
        var r := picked + [c];
        forall i, j | 0 <= i < j < |r| ensures ModuleOf(r[i].0, inputs) != ModuleOf(r[j].0, inputs) {
          if j == |picked| {
            assert r[i] == picked[i];
          } else {
            assert r[i] == picked[i] && r[j] == picked[j];
          }
        }
      }
    }
  }

  /** Picking keeps the candidates' score order. */
  lemma {:induction false} PicksSorted(cands: seq<(string, real)>, inputs: WizardInputs)
    requires Sorted(cands, ScoreGe)
    ensures Sorted(Picks(cands, inputs), ScoreGe)
  {
    if |cands| > 0 {
      var init := cands[..|cands| - 1];
      assert Sorted(init, ScoreGe) by {
        forall i, j | 0 <= i < j < |init| ensures ScoreGe(init[i], init[j]) {
          assert init[i] == cands[i] && init[j] == cands[j];
        }
      }
      PicksSorted(init, inputs);
      PicksAreEligible(init, inputs);
      var picked := Picks(init, inputs);
      var c := cands[|cands| - 1];
      if Eligible(c.0, inputs) && !Seen(picked, ModuleOf(c.0, inputs), inputs) {
        var r := picked + [c];
        forall i, j | 0 <= i < j < |r| ensures ScoreGe(r[i], r[j]) {
          var k :| 0 <= k < |init| && init[k] == picked[i];
          assert cands[k] == picked[i];
          if j == |picked| {
            assert r[i] == picked[i];
          } else {
            assert r[i] == picked[i] && r[j] == picked[j];
          }
        }
      }
    }
  }

  /** Every eligible candidate's module is among the picks' modules. */
  lemma {:induction false} PicksCover(cands: seq<(string, real)>, inputs: WizardInputs, x: (string, real))
    requires x in cands && Eligible(x.0, inputs)
    ensures Seen(Picks(cands, inputs), ModuleOf(x.0, inputs), inputs)
  {
    var init := cands[..|cands| - 1];
    var picked := Picks(init, inputs);
    var c := cands[|cands| - 1];
    var r := Picks(cands, inputs);
    assert picked <= r;
    if x in init {
      PicksCover(init, inputs, x);
      var i :| 0 <= i < |picked| && ModuleOf(picked[i].0, inputs) == ModuleOf(x.0, inputs);
      assert r[i] == picked[i];
    } else {
      assert x == c;
      if !Seen(picked, ModuleOf(c.0, inputs), inputs) {
        assert r[|picked|] == c;
      } else {
        var i :| 0 <= i < |picked| && ModuleOf(picked[i].0, inputs) == ModuleOf(x.0, inputs);
        assert r[i] == picked[i];
      }
    }
  }

  /** In score order, a module's pick scores at least as high as every eligible candidate of that module. */
  lemma {:induction false} PicksBest(cands: seq<(string, real)>, inputs: WizardInputs, x: (string, real))
    requires Sorted(cands, ScoreGe)
    requires x in cands && Eligible(x.0, inputs)
    ensures forall i :: 0 <= i < |Picks(cands, inputs)| && ModuleOf(Picks(cands, inputs)[i].0, inputs) == ModuleOf(x.0, inputs) ==>
              Picks(cands, inputs)[i].1 >= x.1
  {
    var init := cands[..|cands| - 1];
    var picked := Picks(init, inputs);
    var c := cands[|cands| - 1];
    var r := Picks(cands, inputs);
    assert Sorted(init, ScoreGe) by {
      forall i, j | 0 <= i < j < |init| ensures ScoreGe(init[i], init[j]) {
        assert init[i] == cands[i] && init[j] == cands[j];
      }
    }
    if x in init {
      PicksBest(init, inputs, x);
      PicksCover(init, inputs, x);
      forall i | 0 <= i < |r| && ModuleOf(r[i].0, inputs) == ModuleOf(x.0, inputs) ensures r[i].1 >= x.1 {
        if i < |picked| {
          assert r[i] == picked[i];
        }
      }
    } else {
      assert x == c;
      PicksAreEligible(init, inputs);
      forall i | 0 <= i < |r| && ModuleOf(r[i].0, inputs) == ModuleOf(x.0, inputs) ensures r[i].1 >= x.1 {
        if i < |picked| {
          assert r[i] == picked[i];
          var k :| 0 <= k < |init| && init[k] == picked[i];
          assert cands[k] == picked[i];
        } else {
          assert r == picked + [c] && r[i] == c;
        }
      }
    }
  }

  /** `any(def_fqn.startswith(fqn) for def_fqn in definition_to_module_map)`. */
  method AnyDefinitionUnder(fqn: string, inputs: WizardInputs) returns (found: bool)
    ensures found == DefinesUnder(fqn, inputs)
  {
    var todo := inputs.definitionToModule.Keys;
    while todo != {}
      invariant todo <= inputs.definitionToModule.Keys
      invariant forall d :: d in inputs.definitionToModule && d !in todo ==> !(fqn <= d)
      decreases |todo|
    {
      var defFqn :| defFqn in todo;
      if fqn <= defFqn {
        return true;
      }
      todo := todo - {defFqn};
    }
    return false;
  }

  const MaxRecommendations: nat := 5

  /** Adding a recommendation adds its module to the modules seen. */
  lemma SeenSnoc(recs: seq<(string, real)>, seen: set<string>, c: (string, real), inputs: WizardInputs)
    requires forall m :: m in seen <==> Seen(recs, m, inputs)
    ensures forall m :: m in seen + {ModuleOf(c.0, inputs)} <==> Seen(recs + [c], m, inputs)
  {
    var next := recs + [c];
    forall m ensures m in seen + {ModuleOf(c.0, inputs)} <==> Seen(next, m, inputs) {
      if Seen(recs, m, inputs) {
        var i :| 0 <= i < |recs| && ModuleOf(recs[i].0, inputs) == m;
        assert next[i] == recs[i];
      }
      if Seen(next, m, inputs) {
        var i :| 0 <= i < |next| && ModuleOf(next[i].0, inputs) == m;
        if i < |recs| {
          assert next[i] == recs[i];
        }
      }
      assert next[|recs|] == c;
    }
  }

  /** The selection loop over the sorted candidates, stopping at five recommendations. */
  method SelectRecommendations(sortedCandidates: seq<(string, real)>, inputs: WizardInputs)
    returns (recommendations: seq<(string, real)>)
    ensures recommendations == Take(Picks(sortedCandidates, inputs), MaxRecommendations)
  {
    recommendations := [];
    var seenModules: set<string> := {};
    var k := 0;
    while k < |sortedCandidates|
      invariant 0 <= k <= |sortedCandidates|
      invariant recommendations == Picks(sortedCandidates[..k], inputs)
      invariant |recommendations| < MaxRecommendations
      invariant forall m :: m in seenModules <==> Seen(recommendations, m, inputs)
    {
      assert sortedCandidates[..k + 1][..k] == sortedCandidates[..k];
      var (fqn, score) := sortedCandidates[k];
      var modulePath := if fqn in inputs.definitionToModule then inputs.definitionToModule[fqn] else "";
      var isModuleItself := false;
      if modulePath == "" && fqn in inputs.hitsHub {
        modulePath := fqn;
        isModuleItself := true;
      }
      assert modulePath == ModuleOf(fqn, inputs) && isModuleItself == IsModuleItself(fqn, inputs);
      if modulePath == "" {
        k := k + 1;
        continue;
      }
      if isModuleItself {
        var definesUnder := AnyDefinitionUnder(fqn, inputs);
        if !definesUnder {
          k := k + 1;
          continue;
        }
      }
      if modulePath !in seenModules {
        var next := recommendations + [(fqn, score)];
        SeenSnoc(recommendations, seenModules, (fqn, score), inputs);
        recommendations := next;
        seenModules := seenModules + {modulePath};
      }
      k := k + 1;
      if |recommendations| >= MaxRecommendations {
        PicksPrefix(sortedCandidates, k, inputs);
        return;
      }
    }
    assert sortedCandidates[..k] == sortedCandidates;
  }

  /**
   * The recommendation part of `run`: at most five candidates from pairwise
   * distinct modules, each eligible and with its combined score, in
   * non-increasing score order; with fewer than five, every eligible
   * candidate's module is represented.
   */
  method Recommend(inputs: WizardInputs, glob: (string, string) -> bool) returns (recommendations: seq<(string, real)>)
    ensures |recommendations| <= MaxRecommendations
    ensures forall i, j :: 0 <= i < j < |recommendations| ==>
              ModuleOf(recommendations[i].0, inputs) != ModuleOf(recommendations[j].0, inputs)
    ensures forall i, j :: 0 <= i < j < |recommendations| ==> recommendations[i].1 >= recommendations[j].1
    ensures forall i :: 0 <= i < |recommendations| ==>
              recommendations[i].0 in Candidates(inputs) && Eligible(recommendations[i].0, inputs)
              && recommendations[i].1 == CombinedScore(recommendations[i].0, inputs, glob)
    ensures |recommendations| < MaxRecommendations ==>
              forall fqn :: fqn in Candidates(inputs) && Eligible(fqn, inputs) ==>
                Seen(recommendations, ModuleOf(fqn, inputs), inputs)
    ensures forall i, fqn ::
              (0 <= i < |recommendations| && fqn in Candidates(inputs) && Eligible(fqn, inputs)
               && ModuleOf(fqn, inputs) == ModuleOf(recommendations[i].0, inputs)) ==>
                CombinedScore(fqn, inputs, glob) <= recommendations[i].1
    ensures |recommendations| == MaxRecommendations ==>
              forall fqn ::
                (fqn in Candidates(inputs) && Eligible(fqn, inputs)
                 && !Seen(recommendations, ModuleOf(fqn, inputs), inputs)) ==>
                  CombinedScore(fqn, inputs, glob) <= recommendations[MaxRecommendations - 1].1
  {
    var items := CombineScores(inputs, glob);
    ScoreGePreorder();
    var sortedCandidates := SortSeq(items, ScoreGe);
    recommendations := SelectRecommendations(sortedCandidates, inputs);
    ghost var picks := Picks(sortedCandidates, inputs);
    PicksAreEligible(sortedCandidates, inputs);
    PicksDistinctModules(sortedCandidates, inputs);
    PicksSorted(sortedCandidates, inputs);
    forall i | 0 <= i < |recommendations|
      ensures recommendations[i].0 in Candidates(inputs) && Eligible(recommendations[i].0, inputs)
              && recommendations[i].1 == CombinedScore(recommendations[i].0, inputs, glob)
    {
      assert recommendations[i] == picks[i];
      assert picks[i] in multiset(items);
      var j :| 0 <= j < |items| && items[j] == picks[i];
      assert Listed(items, picks[i].0);
    }
    if |recommendations| < MaxRecommendations {
      forall fqn | fqn in Candidates(inputs) && Eligible(fqn, inputs)
        ensures Seen(recommendations, ModuleOf(fqn, inputs), inputs)
      {
        assert Listed(items, fqn);
        var j :| 0 <= j < |items| && items[j].0 == fqn;
        assert items[j] in multiset(sortedCandidates);
        PicksCover(sortedCandidates, inputs, items[j]);
      }
    }
    RecommendBest(items, sortedCandidates, recommendations, inputs, glob);
  }

  /** A pick from the scored candidates in score order beats every other candidate of its module, and the fifth beats every module left out. */
  lemma RecommendBest(items: seq<(string, real)>, sortedCandidates: seq<(string, real)>,
                      recommendations: seq<(string, real)>, inputs: WizardInputs, glob: (string, string) -> bool)
    requires forall fqn :: Listed(items, fqn) <==> fqn in Candidates(inputs)
    requires forall i :: 0 <= i < |items| ==> items[i].1 == CombinedScore(items[i].0, inputs, glob)
    requires multiset(sortedCandidates) == multiset(items) && Sorted(sortedCandidates, ScoreGe)
    requires recommendations == Take(Picks(sortedCandidates, inputs), MaxRecommendations)
    ensures forall i, fqn ::
              (0 <= i < |recommendations| && fqn in Candidates(inputs) && Eligible(fqn, inputs)
               && ModuleOf(fqn, inputs) == ModuleOf(recommendations[i].0, inputs)) ==>
                CombinedScore(fqn, inputs, glob) <= recommendations[i].1
    ensures |recommendations| == MaxRecommendations ==>
              forall fqn ::
                (fqn in Candidates(inputs) && Eligible(fqn, inputs)
                 && !Seen(recommendations, ModuleOf(fqn, inputs), inputs)) ==>
                  CombinedScore(fqn, inputs, glob) <= recommendations[MaxRecommendations - 1].1
  {
    var picks := Picks(sortedCandidates, inputs);
    PicksSorted(sortedCandidates, inputs);
    forall i, fqn | 0 <= i < |recommendations| && fqn in Candidates(inputs) && Eligible(fqn, inputs)
                    && ModuleOf(fqn, inputs) == ModuleOf(recommendations[i].0, inputs)
      ensures CombinedScore(fqn, inputs, glob) <= recommendations[i].1
    {
      var j :| 0 <= j < |items| && items[j].0 == fqn;
      assert items[j] in multiset(sortedCandidates);
      PicksBest(sortedCandidates, inputs, items[j]);
      assert recommendations[i] == picks[i];
    }
    if |recommendations| == MaxRecommendations {
      forall fqn | fqn in Candidates(inputs) && Eligible(fqn, inputs)
                   && !Seen(recommendations, ModuleOf(fqn, inputs), inputs)
        ensures CombinedScore(fqn, inputs, glob) <= recommendations[MaxRecommendations - 1].1
      {
        var j :| 0 <= j < |items| && items[j].0 == fqn;
        assert items[j] in multiset(sortedCandidates);
        PicksCover(sortedCandidates, inputs, items[j]);
        PicksBest(sortedCandidates, inputs, items[j]);
        var p :| 0 <= p < |picks| && ModuleOf(picks[p].0, inputs) == ModuleOf(fqn, inputs);
        assert recommendations[MaxRecommendations - 1] == picks[MaxRecommendations - 1];
      }
    }
  }

  // ---------------------------------------------------------------------
  // the user's choice
  // ---------------------------------------------------------------------

  datatype Action = Proceed | Exit

  /**
   * The configuration update a choice asks for: a focus on some entry points
   * with a maximum depth, an exclude-node filter, or forcing the analysis.
   */
  datatype Update = Focus(entrypoints: seq<string>, maxDepth: nat) | Filtering(excludeNodes: seq<string>) | ForceAnalysis

  /** The configuration path each update is written under. */
  function UpdatePath(u: Update): seq<string>
  {
    match u
    case Focus(_, _) => ["visualization", "component_interaction_graph", "focus"]
    case Filtering(_) => ["visualization", "component_interaction_graph", "filtering"]
    case ForceAnalysis => ["force_analysis"]
  }

  /** The dotted key of the update: its path joined with dots. */
  function UpdateKey(u: Update): string
  {
    Join(UpdatePath(u), '.')
  }

  /** The value written under the update's key. */
  function UpdateValue(u: Update): ConfigLoader.Value
  {
    match u
    case Focus(entrypoints, maxDepth) =>
      ConfigLoader.Dict(map["entrypoints" := ConfigLoader.List(seq(|entrypoints|, i requires 0 <= i < |entrypoints| => ConfigLoader.Str(entrypoints[i]))),
                            "max_depth" := ConfigLoader.Int(maxDepth)])
    case Filtering(excludeNodes) =>
      ConfigLoader.Dict(map["exclude_nodes" := ConfigLoader.List(seq(|excludeNodes|, i requires 0 <= i < |excludeNodes| => ConfigLoader.Str(excludeNodes[i])))])
    case ForceAnalysis => ConfigLoader.Bool(true)
  }

  const FocusDepth: nat := 3

  /** Non-empty, with no whitespace at either end. */
  predicate Clean(x: string)
  {
    x != "" && !IsSpace(x[0]) && !IsSpace(x[|x| - 1])
  }

  /** The non-blank items of the pieces, each stripped. */
  function NonBlank(pieces: seq<string>): (r: seq<string>)
    ensures forall i :: 0 <= i < |r| ==> Clean(r[i])
  {
    if |pieces| == 0 then []
    else
      var rest := NonBlank(pieces[..|pieces| - 1]);
      var piece := Strip(pieces[|pieces| - 1]);
      if piece != "" then rest + [piece] else rest
  }

  /** Stripping the pieces adds no comma. */
  lemma {:induction false} NonBlankNoComma(pieces: seq<string>)
    requires forall i :: 0 <= i < |pieces| ==> ',' !in pieces[i]
    ensures forall i :: 0 <= i < |NonBlank(pieces)| ==> ',' !in NonBlank(pieces)[i]
  {
    if |pieces| > 0 {
      NonBlankNoComma(pieces[..|pieces| - 1]);
      StripKeeps(pieces[|pieces| - 1], ',');
    }
  }

  /** `[x.strip() for x in s.strip().split(",") if x.strip()]`. */
  function CommaList(s: string): (r: seq<string>)
    ensures forall i :: 0 <= i < |r| ==> Clean(r[i]) && ',' !in r[i]
  {
    NonBlankNoComma(Split(Strip(s), ','));
    NonBlank(Split(Strip(s), ','))
  }

  /** Items that are non-empty, comma-free and stripped survive joining with commas and parsing back. */
  lemma CommaListJoin(items: seq<string>)
    requires |items| >= 1
    requires forall i :: 0 <= i < |items| ==> items[i] != "" && ',' !in items[i] && Strip(items[i]) == items[i]
    ensures CommaList(Join(items, ',')) == items
  {
    var joined := Join(items, ',');
    JoinEnds(items);
    assert !IsSpace(items[0][0]) && !IsSpace(items[|items| - 1][|items[|items| - 1]| - 1]) by {
      assert Strip(items[0]) == items[0];
      assert Strip(items[|items| - 1]) == items[|items| - 1];
    }
    StripIdentity(joined);
    SplitJoin(items, ',');
    NonBlankStripped(items);
  }

  /** A join of non-empty parts starts with the first part's first character and ends with the last part's last one. */
  lemma {:induction false} JoinEnds(parts: seq<string>)
    requires |parts| >= 1 && forall i :: 0 <= i < |parts| ==> parts[i] != ""
    ensures var j := Join(parts, ',');
            |j| > 0 && j[0] == parts[0][0] && j[|j| - 1] == parts[|parts| - 1][|parts[|parts| - 1]| - 1]
  {
    if |parts| > 1 {
      var rest := parts[1..];
      JoinEnds(rest);
      var r := Join(rest, ',');
      var j := parts[0] + [','] + r;
      assert Join(parts, ',') == j;
      assert j[0] == parts[0][0];
      assert j[|j| - 1] == r[|r| - 1];
      assert rest[|rest| - 1] == parts[|parts| - 1];
    }
  }

  lemma {:induction false} NonBlankStripped(items: seq<string>)
    requires forall i :: 0 <= i < |items| ==> items[i] != "" && Strip(items[i]) == items[i]
    ensures NonBlank(items) == items
  {
    if |items| > 0 {
      NonBlankStripped(items[..|items| - 1]);
      assert items[..|items| - 1] + [items[|items| - 1]] == items;
    }
  }

  /** The update and action of a valid menu choice; `manualInput` is what the user types for options 1 and 2. */
  function ChoiceOutcome(recommendations: seq<(string, real)>, choice: int, manualInput: string)
    : (r: (Option<Update>, Action))
    requires 1 <= choice <= |recommendations| + 4
    ensures r.1 == Exit <==> choice == |recommendations| + 4
    ensures choice <= |recommendations| ==> r.0 == Some(Focus([recommendations[choice - 1].0], FocusDepth))
    ensures r.0.Some? && r.0.value.Focus? ==> |r.0.value.entrypoints| > 0 && r.0.value.maxDepth == FocusDepth
    ensures r.0.Some? && r.0.value.Filtering? ==> |r.0.value.excludeNodes| > 0
    ensures choice == |recommendations| + 1 ==> (r.0.None? <==> CommaList(manualInput) == [])
    ensures choice == |recommendations| + 2 ==> (r.0.None? <==> CommaList(manualInput) == [])
    ensures choice == |recommendations| + 3 ==> r.0 == Some(ForceAnalysis)
    ensures choice == |recommendations| + 4 ==> r.0.None?
  {
    if choice <= |recommendations| then (Some(Focus([recommendations[choice - 1].0], FocusDepth)), Proceed)
    else
      var optionChoice := choice - |recommendations|;
      if optionChoice == 1 then
        var entrypoints := CommaList(manualInput);
        (if |entrypoints| > 0 then Some(Focus(entrypoints, FocusDepth)) else None, Proceed)
      else if optionChoice == 2 then
        var patterns := CommaList(manualInput);
        (if |patterns| > 0 then Some(Filtering(patterns)) else None, Proceed)
      else if optionChoice == 3 then (Some(ForceAnalysis), Proceed)
      else (None, Exit)
  }

  /** The choice is a number on the menu. */
  predicate ValidChoice(attempt: Option<int>, n: nat)
  {
    attempt.Some? && 1 <= attempt.value <= n + 4
  }

  /**
   * `_get_user_choice`: the prompt repeats until the input is a number on
   * the menu (`None` stands for input that is not a number); `None` when the
   * given inputs run out first.
   */
  method GetUserChoice(recommendations: seq<(string, real)>, attempts: seq<Option<int>>, manualInput: string)
    returns (r: Option<(Option<Update>, Action)>)
    ensures r.None? <==> forall i :: 0 <= i < |attempts| ==> !ValidChoice(attempts[i], |recommendations|)
    ensures r.Some? ==> exists i :: 0 <= i < |attempts| && ValidChoice(attempts[i], |recommendations|)
                                    && (forall j :: 0 <= j < i ==> !ValidChoice(attempts[j], |recommendations|))
                                    && r.value == ChoiceOutcome(recommendations, attempts[i].value, manualInput)
  {
    var k := 0;
    while k < |attempts|
      invariant 0 <= k <= |attempts|
      invariant forall j :: 0 <= j < k ==> !ValidChoice(attempts[j], |recommendations|)
    {
      if attempts[k].Some? {
        var choice := attempts[k].value;
        if 1 <= choice <= |recommendations| + 4 {
          return Some(ChoiceOutcome(recommendations, choice, manualInput));
        }
      }
      k := k + 1;
    }
    return None;
  }
}
