/**
 * The directory-tree printer (utils/file_system_utils.py): a header line with
 * the start directory's name, then one line per entry that no exclude
 * pattern matches, subdirectories before files, each line drawn with a
 * branch pointer under the prefix its parents thread down. The directory
 * tree is an input; `fnmatch` is the parameter `glob`.
 */
module FileSystemUtils {
  import opened Wrappers
  import opened Strings

  /** A directory entry; listing a directory that is not `readable` raises `OSError`. */
  datatype Entry = File(name: string) | Dir(name: string, readable: bool, children: seq<Entry>)

  /** `DEFAULT_EXCLUDED_DIRS`. */
  const DefaultExcludedDirs: set<string> := {
    "__pycache__", ".git", ".vscode", ".idea", "venv", ".venv", "dist", "build", "output", ".ruff_cache", "*.egg-info"
  }

  const Tee: string := "├── "
  const Elbow: string := "└── "

  /** The prefix the children of an entry drawn with `pointer` get: a bar under a tee, blanks under an elbow. */
  function Extension(pointer: string): string
  {
    if pointer == Tee then "│   " else "    "
  }

  /** `is_excluded`: some exclude pattern matches the name. */
  predicate Excluded(name: string, excludes: set<string>, glob: (string, string) -> bool)
  {
    exists p :: p in excludes && glob(name, p)
  }

  /** The entries of `cs` that are not excluded and are directories (`wantDir`) or files, in listing order. */
  function Keep(cs: seq<Entry>, excludes: set<string>, glob: (string, string) -> bool, wantDir: bool): (r: seq<Entry>)
    ensures forall x :: x in r ==> x in cs && !Excluded(x.name, excludes, glob) && x.Dir? == wantDir
    ensures forall x :: x in cs && !Excluded(x.name, excludes, glob) && x.Dir? == wantDir ==> x in r
  {
    if |cs| == 0 then []
    else
      var last := cs[|cs| - 1];
      var init := Keep(cs[..|cs| - 1], excludes, glob, wantDir);
      assert forall x :: x in cs ==> x in cs[..|cs| - 1] || x == last;
      if !Excluded(last.name, excludes, glob) && last.Dir? == wantDir then init + [last] else init
  }

  /**
   * `sorted([p for p in iterdir() if not is_excluded(p.name)], key=is_file)`:
   * the visible entries, directories first, each group in listing order.
   */
  function Arrange(cs: seq<Entry>, excludes: set<string>, glob: (string, string) -> bool): (r: seq<Entry>)
    ensures forall x :: x in r <==> x in cs && !Excluded(x.name, excludes, glob)
    ensures forall i, j :: 0 <= i < j < |r| && r[j].Dir? ==> r[i].Dir?
  {
    var dirs := Keep(cs, excludes, glob, true);
    var files := Keep(cs, excludes, glob, false);
    var r := dirs + files;
    assert forall i :: 0 <= i < |dirs| ==> r[i] == dirs[i] && dirs[i] in dirs;
    assert forall i :: |dirs| <= i < |r| ==> r[i] == files[i - |dirs|] && files[i - |dirs|] in files;
    r
  }

  /** `a` occurs in `r` at an earlier position than `b`. */
  predicate Precedes(r: seq<Entry>, a: Entry, b: Entry)
  {
    exists p, q :: 0 <= p < q < |r| && r[p] == a && r[q] == b
  }

  /** Keeping entries never reorders them: of two kept entries, the earlier one comes first. */
  lemma {:induction false} KeepOrder(cs: seq<Entry>, excludes: set<string>, glob: (string, string) -> bool, wantDir: bool,
                                     i: int, j: int)
    requires 0 <= i < j < |cs|
    requires !Excluded(cs[i].name, excludes, glob) && cs[i].Dir? == wantDir
    requires !Excluded(cs[j].name, excludes, glob) && cs[j].Dir? == wantDir
    ensures Precedes(Keep(cs, excludes, glob, wantDir), cs[i], cs[j])
  {
    var init := cs[..|cs| - 1];
    var last := cs[|cs| - 1];
    var kept := Keep(init, excludes, glob, wantDir);
    var r := Keep(cs, excludes, glob, wantDir);
    assert r == if !Excluded(last.name, excludes, glob) && last.Dir? == wantDir then kept + [last] else kept;
    if j == |cs| - 1 {
      assert init[i] == cs[i];
      assert cs[i] in init;
      assert cs[i] in kept;
      var p :| 0 <= p < |kept| && kept[p] == cs[i];
      assert r == kept + [cs[j]];
      assert r[p] == cs[i] && r[|kept|] == cs[j];
      assert Precedes(r, cs[i], cs[j]);
    } else {
      assert init[i] == cs[i] && init[j] == cs[j];
      KeepOrder(init, excludes, glob, wantDir, i, j);
      var p, q :| 0 <= p < q < |kept| && kept[p] == cs[i] && kept[q] == cs[j];
      assert |kept| <= |r| && r[..|kept|] == kept;
      assert r[p] == cs[i] && r[q] == cs[j];
      assert Precedes(r, cs[i], cs[j]);
    }
  }

  /**
   * `sorted(..., key=is_file)` is stable: two visible entries of the same
   * kind keep their listing order.
   */
  lemma ArrangeStable(cs: seq<Entry>, excludes: set<string>, glob: (string, string) -> bool, i: int, j: int)
    requires 0 <= i < j < |cs|
    requires !Excluded(cs[i].name, excludes, glob) && !Excluded(cs[j].name, excludes, glob)
    requires cs[i].Dir? == cs[j].Dir?
    ensures Precedes(Arrange(cs, excludes, glob), cs[i], cs[j])
  {
    var dirs := Keep(cs, excludes, glob, true);
    var files := Keep(cs, excludes, glob, false);
    var r := Arrange(cs, excludes, glob);
    assert r == dirs + files;
    if cs[i].Dir? {
      KeepOrder(cs, excludes, glob, true, i, j);
      var p, q :| 0 <= p < q < |dirs| && dirs[p] == cs[i] && dirs[q] == cs[j];
      assert r[p] == cs[i] && r[q] == cs[j];
      assert Precedes(r, cs[i], cs[j]);
    } else {
      KeepOrder(cs, excludes, glob, false, i, j);
      var p, q :| 0 <= p < q < |files| && files[p] == cs[i] && files[q] == cs[j];
      assert r[|dirs| + p] == cs[i] && r[|dirs| + q] == cs[j];
      assert Precedes(r, cs[i], cs[j]);
    }
  }

  /** The lines `recurse` appends for a directory: none when it cannot be listed. */
  function ListingLines(dir: Entry, prefix: string, excludes: set<string>, glob: (string, string) -> bool): seq<string>
    decreases dir, 1
  {
    if dir.File? || !dir.readable then []
    else
      var items := Arrange(dir.children, excludes, glob);
      ItemsLines(dir, items, prefix, excludes, glob, |items|)
  }

  /** The lines for the first `n` of the arranged entries of `dir`: each entry's line, then a directory's own listing. */
  function ItemsLines(dir: Entry, items: seq<Entry>, prefix: string, excludes: set<string>, glob: (string, string) -> bool,
                      n: nat): seq<string>
    requires dir.Dir? && dir.readable && n <= |items|
    requires forall x :: x in items ==> x in dir.children
    decreases dir, 0, n
  {
    if n == 0 then []
    else
      var item := items[n - 1];
      assert item in dir.children;
      var pointer := if n == |items| then Elbow else Tee;
      ItemsLines(dir, items, prefix, excludes, glob, n - 1) + [prefix + pointer + item.name]
      + (if item.Dir? then ListingLines(item, prefix + Extension(pointer), excludes, glob) else [])
  }

  /** The whole output: the header line and the start directory's listing. */
  function TreeLines(start: Entry, excludeDirs: Option<set<string>>, glob: (string, string) -> bool): seq<string>
  {
    [start.name + "/"] + ListingLines(start, "", excludeDirs.GetOr(DefaultExcludedDirs), glob)
  }

  // ---------------------------------------------------------------------
  // the printer
  // ---------------------------------------------------------------------

  /** `generate_tree_structure`: the header line, then the lines `recurse` appends. */
  method GenerateTreeStructure(start: Entry, excludeDirs: Option<set<string>>, glob: (string, string) -> bool)
    returns (treeLines: seq<string>)
    ensures treeLines == TreeLines(start, excludeDirs, glob)
    ensures |treeLines| >= 1 && treeLines[0] == start.name + "/"
  {
    var excludes := if excludeDirs.None? then DefaultExcludedDirs else excludeDirs.value;
    treeLines := [start.name + "/"];
    treeLines := Recurse(start, "", excludes, glob, treeLines);
  }

  /** `recurse`: appends one line per visible entry, descending into subdirectories. */
  method Recurse(directory: Entry, prefix: string, excludes: set<string>, glob: (string, string) -> bool,
                 treeLines: seq<string>) returns (out: seq<string>)
    ensures out == treeLines + ListingLines(directory, prefix, excludes, glob)
    decreases directory
  {
    if directory.File? || !directory.readable {
      return treeLines;
    }
    var items := Arrange(directory.children, excludes, glob);
    out := treeLines;
    var i := 0;
    while i < |items|
      invariant 0 <= i <= |items|
      invariant out == treeLines + ItemsLines(directory, items, prefix, excludes, glob, i)
    {
      var path := items[i];
      assert path in directory.children;
      var pointer := if i < |items| - 1 then Tee else Elbow;
      ghost var block := ItemsStep(directory, items, prefix, excludes, glob, i);
      ghost var before := out;
      var line := prefix + pointer + path.name;
      out := out + [line];
      if path.Dir? {
        out := Recurse(path, prefix + Extension(pointer), excludes, glob, out);
        AppendAssoc(before, [line], ListingLines(path, prefix + Extension(pointer), excludes, glob));
      }
      AppendAssoc(treeLines, ItemsLines(directory, items, prefix, excludes, glob, i), block);
      i := i + 1;
    }
  }

  /** One more arranged entry: its line, then its listing when it is a directory. */
  lemma ItemsStep(dir: Entry, items: seq<Entry>, prefix: string, excludes: set<string>,
                  glob: (string, string) -> bool, i: nat) returns (block: seq<string>)
    requires dir.Dir? && dir.readable && i < |items|
    requires forall x :: x in items ==> x in dir.children
    ensures var pointer := if i < |items| - 1 then Tee else Elbow;
            block == [prefix + pointer + items[i].name]
                     + (if items[i].Dir? then ListingLines(items[i], prefix + Extension(pointer), excludes, glob) else [])
    ensures ItemsLines(dir, items, prefix, excludes, glob, i + 1) == ItemsLines(dir, items, prefix, excludes, glob, i) + block
  {
    var pointer := if i < |items| - 1 then Tee else Elbow;
    block := [prefix + pointer + items[i].name]
             + (if items[i].Dir? then ListingLines(items[i], prefix + Extension(pointer), excludes, glob) else []);
  }

  // ---------------------------------------------------------------------
  // properties
  // ---------------------------------------------------------------------

  /** The number of visible entries reachable from a directory that can be listed. */
  function Count(dir: Entry, excludes: set<string>, glob: (string, string) -> bool): nat
    decreases dir, 1
  {
    if dir.File? || !dir.readable then 0
    else CountAll(dir, dir.children, excludes, glob)
  }

  /** The visible entries among `cs`, each with what is reachable under it. */
  function CountAll(dir: Entry, cs: seq<Entry>, excludes: set<string>, glob: (string, string) -> bool): nat
    requires dir.Dir? && dir.readable
    requires forall x :: x in cs ==> x in dir.children
    decreases dir, 0, |cs|
  {
    if |cs| == 0 then 0
    else
      var last := cs[|cs| - 1];
      assert last in dir.children;
      CountAll(dir, cs[..|cs| - 1], excludes, glob)
      + (if Excluded(last.name, excludes, glob) then 0 else 1 + Count(last, excludes, glob))
  }

  /** What one visible entry contributes: its line and, for a directory, its listing. */
  function Weight(dir: Entry, x: Entry, excludes: set<string>, glob: (string, string) -> bool): nat
    requires dir.Dir? && dir.readable && x in dir.children
    decreases dir, 0, 0
  {
    1 + Count(x, excludes, glob)
  }

  /** The weights of a sequence of children. */
  function Weights(dir: Entry, xs: seq<Entry>, excludes: set<string>, glob: (string, string) -> bool): nat
    requires dir.Dir? && dir.readable
    requires forall x :: x in xs ==> x in dir.children
  {
    if |xs| == 0 then 0
    else Weights(dir, xs[..|xs| - 1], excludes, glob) + Weight(dir, xs[|xs| - 1], excludes, glob)
  }

  lemma {:induction false} WeightsAppend(dir: Entry, a: seq<Entry>, b: seq<Entry>, excludes: set<string>,
                                         glob: (string, string) -> bool)
    requires dir.Dir? && dir.readable
    requires forall x :: x in a + b ==> x in dir.children
    ensures Weights(dir, a + b, excludes, glob) == Weights(dir, a, excludes, glob) + Weights(dir, b, excludes, glob)
    decreases |b|
  {
    if |b| == 0 {
      assert a + b == a;
    } else {
      assert (a + b)[..|a + b| - 1] == a + b[..|b| - 1];
      WeightsAppend(dir, a, b[..|b| - 1], excludes, glob);
    }
  }

  /** The visible directories and the visible files together weigh what all visible children weigh. */
  lemma {:induction false} KeepWeights(dir: Entry, cs: seq<Entry>, excludes: set<string>, glob: (string, string) -> bool)
    requires dir.Dir? && dir.readable
    requires forall x :: x in cs ==> x in dir.children
    ensures Weights(dir, Keep(cs, excludes, glob, true), excludes, glob)
            + Weights(dir, Keep(cs, excludes, glob, false), excludes, glob)
            == CountAll(dir, cs, excludes, glob)
  {
    if |cs| > 0 {
      var init := cs[..|cs| - 1];
      KeepWeights(dir, init, excludes, glob);
    }
  }

  /** The listing has one line per visible reachable entry. */
  lemma {:induction false} ListingCount(dir: Entry, prefix: string, excludes: set<string>, glob: (string, string) -> bool)
    ensures |ListingLines(dir, prefix, excludes, glob)| == Count(dir, excludes, glob)
    decreases dir, 1
  {
    if dir.Dir? && dir.readable {
      var cs := dir.children;
      var items := Arrange(cs, excludes, glob);
      ItemsCount(dir, items, prefix, excludes, glob, |items|);
      assert items[..|items|] == items;
      var dirs := Keep(cs, excludes, glob, true);
      var files := Keep(cs, excludes, glob, false);
      WeightsAppend(dir, dirs, files, excludes, glob);
      KeepWeights(dir, cs, excludes, glob);
    }
  }

  lemma {:induction false} ItemsCount(dir: Entry, items: seq<Entry>, prefix: string, excludes: set<string>,
                                      glob: (string, string) -> bool, n: nat)
    requires dir.Dir? && dir.readable && n <= |items|
    requires forall x :: x in items ==> x in dir.children
    ensures |ItemsLines(dir, items, prefix, excludes, glob, n)| == Weights(dir, items[..n], excludes, glob)
    decreases dir, 0, n
  {
    if n > 0 {
      var item := items[n - 1];
      assert item in dir.children;
      assert items[..n][..n - 1] == items[..n - 1];
      ItemsCount(dir, items, prefix, excludes, glob, n - 1);
      var pointer := if n == |items| then Elbow else Tee;
      ListingCount(item, prefix + Extension(pointer), excludes, glob);
    }
  }

  /** Every line of a listing starts with the prefix its parents threaded down. */
  lemma {:induction false} ListingPrefixed(dir: Entry, prefix: string, excludes: set<string>, glob: (string, string) -> bool)
    ensures forall line :: line in ListingLines(dir, prefix, excludes, glob) ==> prefix <= line
    decreases dir, 1
  {
    if dir.Dir? && dir.readable {
      var items := Arrange(dir.children, excludes, glob);
      ItemsPrefixed(dir, items, prefix, excludes, glob, |items|);
    }
  }

  lemma {:induction false} ItemsPrefixed(dir: Entry, items: seq<Entry>, prefix: string, excludes: set<string>,
                                         glob: (string, string) -> bool, n: nat)
    requires dir.Dir? && dir.readable && n <= |items|
    requires forall x :: x in items ==> x in dir.children
    ensures forall line :: line in ItemsLines(dir, items, prefix, excludes, glob, n) ==> prefix <= line
    decreases dir, 0, n
  {
    if n > 0 {
      var item := items[n - 1];
      assert item in dir.children;
      ItemsPrefixed(dir, items, prefix, excludes, glob, n - 1);
      var pointer := if n == |items| then Elbow else Tee;
      var inner := prefix + Extension(pointer);
      ListingPrefixed(item, inner, excludes, glob);
      forall line | line in ListingLines(item, inner, excludes, glob)
        ensures prefix <= line
      {
        assert inner <= line;
      }
    }
  }

  /** The line of the last arranged entry of a directory is drawn with the elbow, every other with the tee. */
  lemma LastEntryElbow(dir: Entry, items: seq<Entry>, prefix: string, excludes: set<string>,
                       glob: (string, string) -> bool, n: nat)
    requires dir.Dir? && dir.readable && 0 < n <= |items|
    requires forall x :: x in items ==> x in dir.children
    ensures var lines := ItemsLines(dir, items, prefix, excludes, glob, n);
            var at := |ItemsLines(dir, items, prefix, excludes, glob, n - 1)|;
            at < |lines| && lines[at] == prefix + (if n == |items| then Elbow else Tee) + items[n - 1].name
  {
  }

  /** The output is the header plus one line per visible entry reachable from the start directory. */
  lemma TreeSize(start: Entry, excludeDirs: Option<set<string>>, glob: (string, string) -> bool)
    ensures |TreeLines(start, excludeDirs, glob)| == 1 + Count(start, excludeDirs.GetOr(DefaultExcludedDirs), glob)
    ensures start.File? || !start.readable ==> TreeLines(start, excludeDirs, glob) == [start.name + "/"]
  {
    ListingCount(start, "", excludeDirs.GetOr(DefaultExcludedDirs), glob);
  }
}
