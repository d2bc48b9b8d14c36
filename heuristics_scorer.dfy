/**
 * The heuristic scorer (intelligence/heuristics_scorer.py): every definition
 * of every scanned module gets the sum of the scores of the module-path
 * rules matching its module, of the `__main__`-block feature rules when the
 * module has one, and of the name rules matching its last dotted segment.
 * The rules file is an input; `fnmatch` is the parameter `glob`.
 */
module HeuristicsScorer {
  import opened Wrappers
  import opened Strings

  /** A `by_module_path` or `by_definition_name` rule. */
  datatype PatternRule = PatternRule(pattern: string, score: real)

  /** A `by_code_feature` rule. */
  datatype FeatureRule = FeatureRule(feature: string, score: real)

  /** The `scoring_rules` section; a missing list is empty. */
  datatype ScoringRules = ScoringRules(byModulePath: seq<PatternRule>, byDefinitionName: seq<PatternRule>,
                                       byCodeFeature: seq<FeatureRule>)

  /** What the quick scan records for a module: its path, whether it has a `__main__` block, its definitions. */
  datatype ScannedModule = ScannedModule(modulePath: string, hasMainBlock: bool, definitions: set<string>)

  const MainBlockFeature: string := "has___main__block"

  /** The sum of the scores of the rules whose pattern matches `name`. */
  function MatchingSum(name: string, rules: seq<PatternRule>, glob: (string, string) -> bool): real
  {
    if |rules| == 0 then 0.0
    else
      var last := rules[|rules| - 1];
      MatchingSum(name, rules[..|rules| - 1], glob) + (if glob(name, last.pattern) then last.score else 0.0)
  }

  /** The sum of the scores of the `__main__`-block feature rules. */
  function MainBlockSum(rules: seq<FeatureRule>): real
  {
    if |rules| == 0 then 0.0
    else
      var last := rules[|rules| - 1];
      MainBlockSum(rules[..|rules| - 1]) + (if last.feature == MainBlockFeature then last.score else 0.0)
  }

  /** The feature score of a module: zero without a `__main__` block. */
  function FeatureScore(m: ScannedModule, rules: seq<FeatureRule>): real
  {
    if m.hasMainBlock then MainBlockSum(rules) else 0.0
  }

  /** The score of definition `defFqn` of module `m`. */
  function DefinitionScore(m: ScannedModule, defFqn: string, rules: ScoringRules, glob: (string, string) -> bool): real
  {
    MatchingSum(m.modulePath, rules.byModulePath, glob) + FeatureScore(m, rules.byCodeFeature)
    + MatchingSum(LastSegment(defFqn, '.'), rules.byDefinitionName, glob)
  }

  /** The scores of the definitions of the modules in scan order: a later module overwrites an equal name. */
  function Scores(modules: seq<ScannedModule>, rules: ScoringRules, glob: (string, string) -> bool): (r: map<string, real>)
    ensures |modules| > 0 ==>
              forall d :: d in modules[|modules| - 1].definitions ==>
                d in r && r[d] == DefinitionScore(modules[|modules| - 1], d, rules, glob)
    ensures |modules| > 0 ==> Scores(modules[..|modules| - 1], rules, glob).Keys <= r.Keys
  {
    if |modules| == 0 then map[]
    else
      var m := modules[|modules| - 1];
      Scores(modules[..|modules| - 1], rules, glob) + ModuleScores(m, rules, glob)
  }

  /** The scores of one module's definitions. */
  function ModuleScores(m: ScannedModule, rules: ScoringRules, glob: (string, string) -> bool): (r: map<string, real>)
    ensures r.Keys == m.definitions
  {
    map d | d in m.definitions :: DefinitionScore(m, d, rules, glob)
  }

  // ---------------------------------------------------------------------
  // properties of the rule sums
  // ---------------------------------------------------------------------

  /** Rules that do not match contribute nothing: with no matching rule the sum is zero. */
  lemma {:induction false} MatchingSumNoMatch(name: string, rules: seq<PatternRule>, glob: (string, string) -> bool)
    requires forall i :: 0 <= i < |rules| ==> !glob(name, rules[i].pattern)
    ensures MatchingSum(name, rules, glob) == 0.0
  {
    if |rules| > 0 {
      MatchingSumNoMatch(name, rules[..|rules| - 1], glob);
    }
  }

  /** The sum over two rule lists is the sum of the sums: each matching rule is counted once, in any grouping. */
  lemma {:induction false} MatchingSumAppend(name: string, a: seq<PatternRule>, b: seq<PatternRule>, glob: (string, string) -> bool)
    ensures MatchingSum(name, a + b, glob) == MatchingSum(name, a, glob) + MatchingSum(name, b, glob)
    decreases |b|
  {
    if |b| == 0 {
      assert a + b == a;
    } else {
      assert (a + b)[..|a + b| - 1] == a + b[..|b| - 1];
      MatchingSumAppend(name, a, b[..|b| - 1], glob);
    }
  }

  /** With non-negative rule scores, every sum is non-negative. */
  lemma {:induction false} MatchingSumNonNegative(name: string, rules: seq<PatternRule>, glob: (string, string) -> bool)
    requires forall i :: 0 <= i < |rules| ==> rules[i].score >= 0.0
    ensures MatchingSum(name, rules, glob) >= 0.0
  {
    if |rules| > 0 {
      MatchingSumNonNegative(name, rules[..|rules| - 1], glob);
    }
  }

  /** Every definition of every module has a score, and nothing else has one. */
  lemma {:induction false} ScoresKeys(modules: seq<ScannedModule>, rules: ScoringRules, glob: (string, string) -> bool, d: string)
    ensures d in Scores(modules, rules, glob) <==> exists i :: 0 <= i < |modules| && d in modules[i].definitions
  {
    if |modules| > 0 {
      var init := modules[..|modules| - 1];
      ScoresKeys(init, rules, glob, d);
      if exists i :: 0 <= i < |modules| && d in modules[i].definitions {
        var i :| 0 <= i < |modules| && d in modules[i].definitions;
        if i < |init| {
          assert init[i] == modules[i];
        }
      }
      if exists i :: 0 <= i < |init| && d in init[i].definitions {
        var i :| 0 <= i < |init| && d in init[i].definitions;
        assert modules[i] == init[i];
      }
    }
  }

  /** A definition's score is the one computed in the last module that defines it. */
  lemma {:induction false} ScoresLastWins(modules: seq<ScannedModule>, rules: ScoringRules, glob: (string, string) -> bool,
                                          i: nat, d: string)
    requires i < |modules| && d in modules[i].definitions
    requires forall j :: i < j < |modules| ==> d !in modules[j].definitions
    ensures d in Scores(modules, rules, glob)
    ensures Scores(modules, rules, glob)[d] == DefinitionScore(modules[i], d, rules, glob)
  {
    var init := modules[..|modules| - 1];
    if i < |modules| - 1 {
      assert d !in modules[|modules| - 1].definitions;
      forall j | i < j < |init| ensures d !in init[j].definitions {
        assert init[j] == modules[j];
      }
      ScoresLastWins(init, rules, glob, i, d);
    }
  }

  /** `HeuristicsScorer`: the rules, `None` when they could not be loaded or are empty. */
  class HeuristicsScorer {
    const rules: Option<ScoringRules>

    constructor (rules: Option<ScoringRules>)
      ensures this.rules == rules
    {
      this.rules := rules;
    }

    /** `score`: `{}` without rules; otherwise every definition's summed score. */
    method Score(modules: seq<ScannedModule>, glob: (string, string) -> bool) returns (scores: map<string, real>)
      ensures rules.None? ==> scores == map[]
      ensures rules.Some? ==> scores == Scores(modules, rules.value, glob)
    {
      if rules.None? {
        return map[];
      }
      var scoringRules := rules.value;
      scores := map[];
      var k := 0;
      while k < |modules|
        invariant 0 <= k <= |modules|
        invariant scores == Scores(modules[..k], scoringRules, glob)
      {
        assert modules[..k + 1][..k] == modules[..k];
        scores := ScoreModule(modules[k], scoringRules, glob, scores);
        k := k + 1;
      }
      assert modules[..k] == modules;
    }
  }

  /** One iteration of the module loop of `score`: the module's definitions are written into the scores. */
  method ScoreModule(scanData: ScannedModule, scoringRules: ScoringRules, glob: (string, string) -> bool,
                     scores: map<string, real>) returns (updated: map<string, real>)
    ensures updated == scores + ModuleScores(scanData, scoringRules, glob)
  {
    var pathScore := SumMatching(scanData.modulePath, scoringRules.byModulePath, glob);
    var featureScore := 0.0;
    if scanData.hasMainBlock {
      featureScore := SumMainBlock(scoringRules.byCodeFeature);
    }
    updated := ScoreDefinitions(scanData, pathScore, featureScore, scoringRules, glob, scores);
  }

  /** The definition loop of `score`, given the module's path and feature scores. */
  method ScoreDefinitions(scanData: ScannedModule, pathScore: real, featureScore: real, scoringRules: ScoringRules,
                          glob: (string, string) -> bool, scores: map<string, real>) returns (updated: map<string, real>)
    requires pathScore == MatchingSum(scanData.modulePath, scoringRules.byModulePath, glob)
    requires featureScore == FeatureScore(scanData, scoringRules.byCodeFeature)
    ensures updated == scores + ModuleScores(scanData, scoringRules, glob)
  {
    ghost var moduleScores := ModuleScores(scanData, scoringRules, glob);
    var todo := scanData.definitions;
    updated := scores;
    while todo != {}
      invariant todo <= scanData.definitions
      invariant updated.Keys == scores.Keys + (scanData.definitions - todo)
      invariant forall d :: d in scanData.definitions - todo ==> updated[d] == moduleScores[d]
      invariant forall d :: d in scores && d !in scanData.definitions - todo ==> updated[d] == scores[d]
      decreases |todo|
    {
      var defFqn :| defFqn in todo;
      var defName := LastSegment(defFqn, '.');
      var defNameScore := SumMatching(defName, scoringRules.byDefinitionName, glob);
      var totalScore := pathScore + featureScore + defNameScore;
      assert totalScore == moduleScores[defFqn];
      updated := updated[defFqn := totalScore];
      todo := todo - {defFqn};
    }
    OverwriteIs(scores, moduleScores, updated, scanData.definitions, todo);
  }

  /** When the loop over `defs` is done, the map holds `scores` overwritten by `m`: `scores + m`. */
  lemma OverwriteIs<K>(scores: map<K, real>, m: map<K, real>, updated: map<K, real>, defs: set<K>, todo: set<K>)
    requires m.Keys == defs && todo == {}
    requires updated.Keys == scores.Keys + (defs - todo)
    requires forall d :: d in defs - todo ==> updated[d] == m[d]
    requires forall d :: d in scores && d !in defs - todo ==> updated[d] == scores[d]
    ensures updated == scores + m
  {
    assert defs - todo == defs;
  }

  /** The rule loop shared by the path and the name scores. */
  method SumMatching(name: string, rules: seq<PatternRule>, glob: (string, string) -> bool) returns (total: real)
    ensures total == MatchingSum(name, rules, glob)
  {
    total := 0.0;
    var j := 0;
    while j < |rules|
      invariant 0 <= j <= |rules|
      invariant total == MatchingSum(name, rules[..j], glob)
    {
      assert rules[..j + 1][..j] == rules[..j];
      if glob(name, rules[j].pattern) {
        total := total + rules[j].score;
      }
      j := j + 1;
    }
    assert rules[..j] == rules;
  }

  /** The feature-rule loop, entered only for a module with a `__main__` block. */
  method SumMainBlock(rules: seq<FeatureRule>) returns (total: real)
    ensures total == MainBlockSum(rules)
  {
    total := 0.0;
    var j := 0;
    while j < |rules|
      invariant 0 <= j <= |rules|
      invariant total == MainBlockSum(rules[..j])
    {
      assert rules[..j + 1][..j] == rules[..j];
      if rules[j].feature == MainBlockFeature {
        total := total + rules[j].score;
      }
      j := j + 1;
    }
    assert rules[..j] == rules;
  }
}
