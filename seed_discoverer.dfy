/**
 * Automatic seed discovery (parsers/seed_discoverer.py): module-level
 * assignments of a call result name candidate concepts; the candidates no
 * exclude pattern matches become one track group each. Scopes and fully
 * qualified names come from the libcst metadata and are inputs here;
 * `fnmatch` is the parameter `glob`.
 */
module SeedDiscoverer {
  import opened Wrappers
  import opened Strings
  import opened Sorting
  import opened ConceptFlowAnalyzer

  /** An `Assign` node: whether it is in the global scope, whether its value is a call, its targets' names. */
  datatype SeedAssign = SeedAssign(inGlobalScope: bool, valueIsCall: bool, targetFqns: seq<Option<string>>)

  datatype TrackGroup = TrackGroup(groupName: string, fromObject: string)

  /** The normalised names of the targets that have one. */
  function TargetSeeds(targetFqns: seq<Option<string>>, rootPkg: string): (r: set<string>)
    ensures forall i :: 0 <= i < |targetFqns| && targetFqns[i].Some? ==> Normalize(targetFqns[i].value, rootPkg) in r
    ensures |r| <= |targetFqns|
  {
    if |targetFqns| == 0 then {}
    else
      TargetSeeds(targetFqns[..|targetFqns| - 1], rootPkg)
      + (if targetFqns[|targetFqns| - 1].Some? then {Normalize(targetFqns[|targetFqns| - 1].value, rootPkg)} else {})
  }

  /** The targets' seeds are exactly their normalised names. */
  lemma {:induction false} TargetSeedsMembers(targetFqns: seq<Option<string>>, rootPkg: string, x: string)
    ensures x in TargetSeeds(targetFqns, rootPkg)
        <==> exists i :: 0 <= i < |targetFqns| && targetFqns[i].Some? && x == Normalize(targetFqns[i].value, rootPkg)
  {
    if |targetFqns| > 0 {
      var init := targetFqns[..|targetFqns| - 1];
      TargetSeedsMembers(init, rootPkg, x);
      if x in TargetSeeds(targetFqns, rootPkg) {
        if x in TargetSeeds(init, rootPkg) {
          var i :| 0 <= i < |init| && init[i].Some? && x == Normalize(init[i].value, rootPkg);
          assert targetFqns[i] == init[i];
        } else {
          var i := |init|;
          assert targetFqns[i].Some? && x == Normalize(targetFqns[i].value, rootPkg);
        }
      }
      if exists i :: 0 <= i < |targetFqns| && targetFqns[i].Some? && x == Normalize(targetFqns[i].value, rootPkg) {
        var i :| 0 <= i < |targetFqns| && targetFqns[i].Some? && x == Normalize(targetFqns[i].value, rootPkg);
        if i < |init| {
          assert init[i] == targetFqns[i];
          assert x in TargetSeeds(init, rootPkg);
        }
        assert x in TargetSeeds(targetFqns, rootPkg);
      }
    }
  }

  /** `visit_Assign`: only module-level assignments of a call result yield seeds. */
  function AssignSeeds(n: SeedAssign, rootPkg: string): (r: set<string>)
    ensures !n.inGlobalScope || !n.valueIsCall ==> r == {}
  {
    if !n.inGlobalScope || !n.valueIsCall then {} else TargetSeeds(n.targetFqns, rootPkg)
  }

  function FileSeeds(assigns: seq<SeedAssign>, rootPkg: string): set<string>
  {
    if |assigns| == 0 then {}
    else FileSeeds(assigns[..|assigns| - 1], rootPkg) + AssignSeeds(assigns[|assigns| - 1], rootPkg)
  }

  /** The seeds of every file the repository manager could give a wrapper for (`None` for a failed file). */
  function AllSeeds(files: seq<Option<seq<SeedAssign>>>, rootPkg: string): set<string>
  {
    if |files| == 0 then {}
    else AllSeeds(files[..|files| - 1], rootPkg) + (if files[|files| - 1].Some? then FileSeeds(files[|files| - 1].value, rootPkg) else {})
  }

  /** Every seed is a normalised name: a seed never keeps a `.<locals>` the scan removes. */
  lemma {:induction false} SeedsAreNormalized(files: seq<Option<seq<SeedAssign>>>, rootPkg: string, x: string)
    requires x in AllSeeds(files, rootPkg)
    ensures exists name :: x == Normalize(name, rootPkg)
  {
    var init := files[..|files| - 1];
    if x in AllSeeds(init, rootPkg) {
      SeedsAreNormalized(init, rootPkg, x);
    } else {
      var assigns := files[|files| - 1].value;
      FileSeedNormalized(assigns, rootPkg, x);
    }
  }

  lemma {:induction false} FileSeedNormalized(assigns: seq<SeedAssign>, rootPkg: string, x: string)
    requires x in FileSeeds(assigns, rootPkg)
    ensures exists name :: x == Normalize(name, rootPkg)
  {
    var init := assigns[..|assigns| - 1];
    if x in FileSeeds(init, rootPkg) {
      FileSeedNormalized(init, rootPkg, x);
    } else {
      var n := assigns[|assigns| - 1];
      TargetSeedsMembers(n.targetFqns, rootPkg, x);
      var i :| 0 <= i < |n.targetFqns| && n.targetFqns[i].Some? && x == Normalize(n.targetFqns[i].value, rootPkg);
    }
  }

  /** `SeedDiscoveryVisitor`: the seeds found in one file. */
  class SeedDiscoveryVisitor {
    const rootPkg: string
    var discoveredSeeds: set<string>

    constructor (rootPkg: string)
      ensures this.rootPkg == rootPkg && discoveredSeeds == {}
    {
      this.rootPkg := rootPkg;
      discoveredSeeds := {};
    }

    method VisitAssign(n: SeedAssign)
      modifies this
      ensures discoveredSeeds == old(discoveredSeeds) + AssignSeeds(n, rootPkg)
    {
      if !n.inGlobalScope {
        return;
      }
      if n.valueIsCall {
        var k := 0;
        while k < |n.targetFqns|
          invariant 0 <= k <= |n.targetFqns|
          invariant discoveredSeeds == old(discoveredSeeds) + TargetSeeds(n.targetFqns[..k], rootPkg)
        {
          assert n.targetFqns[..k + 1][..k] == n.targetFqns[..k];
          var fqns := n.targetFqns[k];
          if fqns.Some? {
            var normalizedFqn := Normalize(fqns.value, rootPkg);
            discoveredSeeds := discoveredSeeds + {normalizedFqn};
          }
          k := k + 1;
        }
        assert n.targetFqns[..k] == n.targetFqns;
      }
    }

    method VisitFile(assigns: seq<SeedAssign>)
      modifies this
      ensures discoveredSeeds == old(discoveredSeeds) + FileSeeds(assigns, rootPkg)
    {
      var k := 0;
      while k < |assigns|
        invariant 0 <= k <= |assigns|
        invariant discoveredSeeds == old(discoveredSeeds) + FileSeeds(assigns[..k], rootPkg)
      {
        assert assigns[..k + 1][..k] == assigns[..k];
        VisitAssign(assigns[k]);
        k := k + 1;
      }
      assert assigns[..k] == assigns;
    }
  }

  /** Some exclude pattern matches the name. */
  predicate Excluded(fqn: string, excludePatterns: seq<string>, glob: (string, string) -> bool)
  {
    exists i :: 0 <= i < |excludePatterns| && glob(fqn, excludePatterns[i])
  }

  /** The inner loop of the filter, which stops at the first matching pattern. */
  method IsExcluded(fqn: string, excludePatterns: seq<string>, glob: (string, string) -> bool) returns (isExcluded: bool)
    ensures isExcluded == Excluded(fqn, excludePatterns, glob)
  {
    isExcluded := false;
    var k := 0;
    while k < |excludePatterns|
      invariant 0 <= k <= |excludePatterns|
      invariant forall j :: 0 <= j < k ==> !glob(fqn, excludePatterns[j])
    {
      if glob(fqn, excludePatterns[k]) {
        isExcluded := true;
        break;
      }
      k := k + 1;
    }
  }

  /** The seeds that survive the exclude patterns. */
  ghost function Survivors(seeds: set<string>, excludePatterns: seq<string>, glob: (string, string) -> bool): set<string>
  {
    set fqn | fqn in seeds && !Excluded(fqn, excludePatterns, glob)
  }

  /** The exclusion loop over the discovered names. */
  method FilterSeeds(discoveredFqns: set<string>, excludePatterns: seq<string>, glob: (string, string) -> bool)
    returns (filteredFqns: set<string>)
    ensures filteredFqns == Survivors(discoveredFqns, excludePatterns, glob)
  {
    filteredFqns := {};
    var todo := discoveredFqns;
    while todo != {}
      invariant todo <= discoveredFqns
      invariant filteredFqns == Survivors(discoveredFqns - todo, excludePatterns, glob)
      decreases |todo|
    {
      var fqn :| fqn in todo;
      var isExcluded := IsExcluded(fqn, excludePatterns, glob);
      if !isExcluded {
        filteredFqns := filteredFqns + {fqn};
      }
      todo := todo - {fqn};
    }
    assert discoveredFqns - todo == discoveredFqns;
  }

  /** One track group per name, named by the name's last dotted segment. */
  function TrackGroups(fqns: seq<string>): (r: seq<TrackGroup>)
    ensures |r| == |fqns|
    ensures forall i :: 0 <= i < |fqns| ==> r[i].fromObject == fqns[i] && r[i].groupName == LastSegment(fqns[i], '.')
  {
    if |fqns| == 0 then [] else [TrackGroup(LastSegment(fqns[0], '.'), fqns[0])] + TrackGroups(fqns[1..])
  }

  /**
   * `discover_seeds`: `[]` when the repository manager fails; otherwise one
   * group per surviving seed, sorted by name, each named by its last segment.
   */
  method DiscoverSeeds(rootPkg: string, files: seq<Option<seq<SeedAssign>>>, repoManagerOk: bool,
                       excludePatterns: seq<string>, glob: (string, string) -> bool)
    returns (trackGroups: seq<TrackGroup>)
    ensures !repoManagerOk ==> trackGroups == []
    ensures repoManagerOk ==>
              forall fqn :: (exists i :: 0 <= i < |trackGroups| && trackGroups[i].fromObject == fqn)
                            <==> fqn in AllSeeds(files, rootPkg) && !Excluded(fqn, excludePatterns, glob)
    ensures repoManagerOk ==> |trackGroups| == |Survivors(AllSeeds(files, rootPkg), excludePatterns, glob)|
    ensures forall i, j :: 0 <= i < j < |trackGroups| ==> Less(trackGroups[i].fromObject, trackGroups[j].fromObject)
    ensures forall i :: 0 <= i < |trackGroups| ==> trackGroups[i].groupName == LastSegment(trackGroups[i].fromObject, '.')
  {
    if !repoManagerOk {
      return [];
    }
    var discoveredFqns: set<string> := {};
    var k := 0;
    while k < |files|
      invariant 0 <= k <= |files|
      invariant discoveredFqns == AllSeeds(files[..k], rootPkg)
    {
      assert files[..k + 1][..k] == files[..k];
      if files[k].Some? {
        var visitor := new SeedDiscoveryVisitor(rootPkg);
        visitor.VisitFile(files[k].value);
        discoveredFqns := discoveredFqns + visitor.discoveredSeeds;
      }
      k := k + 1;
    }
    assert files[..k] == files;
    var filteredFqns := FilterSeeds(discoveredFqns, excludePatterns, glob);
    StringOrder();
    var sortedFqns := SortSet(filteredFqns, Less);
    trackGroups := TrackGroups(sortedFqns);
    forall fqn ensures (exists i :: 0 <= i < |trackGroups| && trackGroups[i].fromObject == fqn)
                       <==> fqn in discoveredFqns && !Excluded(fqn, excludePatterns, glob) {
      assert fqn in filteredFqns <==> fqn in discoveredFqns && !Excluded(fqn, excludePatterns, glob);
      if fqn in filteredFqns {
        var i :| 0 <= i < |sortedFqns| && sortedFqns[i] == fqn;
        assert trackGroups[i].fromObject == fqn;
      }
    }
  }
}
