/**
 * The two pure helpers of the dependency-graph renderer
 * (renderers/renderer.py): the rows of a module node's table label, at most
 * fifteen items with an overflow row for the rest, and the comment block
 * that lists the architecture layers for a reader of the DOT source.
 */
module Renderer {
  import opened Wrappers
  import opened Strings
  import Sorting
  import ComponentRenderer

  /** `MAX_ITEMS_PER_NODE`. */
  const MaxItemsPerNode: nat := 15

  /** One row of a module node's table. */
  datatype Row =
    | Header(moduleName: string, bgColor: string)
    | ClassRow(name: string)
    | FunctionRow(name: string)
    | Overflow(hidden: nat)
    | Placeholder

  /** `details.get(key, [])`. */
  function Listed(details: map<string, seq<string>>, key: string): seq<string>
  {
    if key in details then details[key] else []
  }

  /** Every item a module defines, in the order they are listed: its classes, then its functions. */
  function ItemRows(classes: seq<string>, functions: seq<string>): (r: seq<Row>)
    ensures |r| == |classes| + |functions|
  {
    seq(|classes| + |functions|, k requires 0 <= k < |classes| + |functions| =>
      if k < |classes| then ClassRow(classes[k]) else FunctionRow(functions[k - |classes|]))
  }

  function Min(a: nat, b: nat): nat
  {
    if a < b then a else b
  }

  /** The rows of a module's label for its (sorted) classes and functions. */
  function LabelRows(moduleName: string, bgColor: string, classes: seq<string>, functions: seq<string>): seq<Row>
  {
    var total := |classes| + |functions|;
    var shown := Min(total, MaxItemsPerNode);
    [Header(moduleName, bgColor)] + ItemRows(classes, functions)[..shown]
    + (if total > shown then [Overflow(total - shown)] else [])
    + (if total == 0 then [Placeholder] else [])
  }

  /**
   * `_create_module_label`: sorts the module's classes and functions, emits
   * the header and then item rows until fifteen are shown, then the
   * overflow row or the placeholder. Returns the rows with the sorted lists.
   */
  method CreateModuleLabel(moduleName: string, details: map<string, seq<string>>, bgColor: string)
    returns (rows: seq<Row>, classes: seq<string>, functions: seq<string>)
    ensures Sorting.Sorted(classes, Sorting.StringLe) && multiset(classes) == multiset(Listed(details, "classes"))
    ensures Sorting.Sorted(functions, Sorting.StringLe) && multiset(functions) == multiset(Listed(details, "functions"))
    ensures rows == LabelRows(moduleName, bgColor, classes, functions)
  {
    Sorting.StringPreorder();
    classes := Sorting.SortSeq(Listed(details, "classes"), Sorting.StringLe);
    functions := Sorting.SortSeq(Listed(details, "functions"), Sorting.StringLe);
    rows := EmitRows(moduleName, bgColor, classes, functions);
  }

  /** The loops of `_create_module_label`, with the `items_shown` counter and its `break`s. */
  method EmitRows(moduleName: string, bgColor: string, classes: seq<string>, functions: seq<string>)
    returns (rows: seq<Row>)
    ensures rows == LabelRows(moduleName, bgColor, classes, functions)
  {
    var total := |classes| + |functions|;
    ghost var items := ItemRows(classes, functions);
    var itemsShown := 0;
    rows := [Header(moduleName, bgColor)];
    var i := 0;
    while i < |classes|
      invariant 0 <= i <= |classes| && itemsShown == i <= MaxItemsPerNode
      invariant rows == [Header(moduleName, bgColor)] + items[..itemsShown]
    {
      if itemsShown >= MaxItemsPerNode {
        break;
      }
      assert items[..itemsShown + 1] == items[..itemsShown] + [ClassRow(classes[i])];
      rows := rows + [ClassRow(classes[i])];
      itemsShown := itemsShown + 1;
      i := i + 1;
    }
    assert itemsShown == Min(|classes|, MaxItemsPerNode);
    ghost var fromClasses := itemsShown;
    var j := 0;
    while j < |functions|
      invariant 0 <= j <= |functions| && itemsShown == fromClasses + j <= MaxItemsPerNode
      invariant j > 0 ==> fromClasses == |classes|
      invariant rows == [Header(moduleName, bgColor)] + items[..itemsShown]
    {
      if itemsShown >= MaxItemsPerNode {
        break;
      }
      assert items[..itemsShown + 1] == items[..itemsShown] + [FunctionRow(functions[j])];
      rows := rows + [FunctionRow(functions[j])];
      itemsShown := itemsShown + 1;
      j := j + 1;
    }
    assert itemsShown == Min(total, MaxItemsPerNode);
    if total > itemsShown {
      rows := rows + [Overflow(total - itemsShown)];
    }
    if total == 0 {
      rows := rows + [Placeholder];
    }
  }

  /** The number of item rows. */
  function ItemCount(rows: seq<Row>): nat
  {
    if |rows| == 0 then 0
    else ItemCount(rows[..|rows| - 1]) + (if rows[|rows| - 1].ClassRow? || rows[|rows| - 1].FunctionRow? then 1 else 0)
  }

  /** The number of items the overflow rows report as not shown. */
  function HiddenCount(rows: seq<Row>): nat
  {
    if |rows| == 0 then 0
    else HiddenCount(rows[..|rows| - 1]) + (if rows[|rows| - 1].Overflow? then rows[|rows| - 1].hidden else 0)
  }

  lemma {:induction false} CountsAppend(a: seq<Row>, b: seq<Row>)
    ensures ItemCount(a + b) == ItemCount(a) + ItemCount(b)
    ensures HiddenCount(a + b) == HiddenCount(a) + HiddenCount(b)
    decreases |b|
  {
    if |b| == 0 {
      assert a + b == a;
    } else {
      assert (a + b)[..|a + b| - 1] == a + b[..|b| - 1];
      CountsAppend(a, b[..|b| - 1]);
    }
  }

  lemma {:induction false} AllItems(s: seq<Row>)
    requires forall k :: 0 <= k < |s| ==> s[k].ClassRow? || s[k].FunctionRow?
    ensures ItemCount(s) == |s| && HiddenCount(s) == 0
  {
    if |s| > 0 {
      AllItems(s[..|s| - 1]);
    }
  }

  /**
   * Every item is accounted for: the item rows shown and the overflow
   * count add up to the module's items, and at most fifteen are shown.
   */
  lemma LabelAccounting(moduleName: string, bgColor: string, classes: seq<string>, functions: seq<string>)
    ensures var rows := LabelRows(moduleName, bgColor, classes, functions);
            var total := |classes| + |functions|;
            && ItemCount(rows) == Min(total, MaxItemsPerNode)
            && ItemCount(rows) + HiddenCount(rows) == total
  {
    var total := |classes| + |functions|;
    var shown := Min(total, MaxItemsPerNode);
    var head := [Header(moduleName, bgColor)];
    var items := ItemRows(classes, functions)[..shown];
    var over: seq<Row> := if total > shown then [Overflow(total - shown)] else [];
    var empty: seq<Row> := if total == 0 then [Placeholder] else [];
    assert LabelRows(moduleName, bgColor, classes, functions) == head + items + over + empty;
    AllItems(items);
    CountsAppend(head, items);
    CountsAppend(head + items, over);
    CountsAppend(head + items + over, empty);
    assert ItemCount(head) == 0 && HiddenCount(head) == 0 by {
      assert head[..0] == [];
    }
    assert ItemCount(over) == 0 && HiddenCount(over) == total - shown by {
      if |over| > 0 { assert over[..0] == []; }
    }
    assert ItemCount(empty) == 0 && HiddenCount(empty) == 0 by {
      if |empty| > 0 { assert empty[..0] == []; }
    }
  }

  /**
   * The header comes first, an overflow row appears exactly when there are
   * more than fifteen items, and the placeholder exactly when there are none.
   */
  lemma LabelMarkers(moduleName: string, bgColor: string, classes: seq<string>, functions: seq<string>)
    ensures var rows := LabelRows(moduleName, bgColor, classes, functions);
            var total := |classes| + |functions|;
            && rows[0] == Header(moduleName, bgColor)
            && (Placeholder in rows <==> total == 0)
            && ((exists k :: 0 <= k < |rows| && rows[k].Overflow?) <==> total > MaxItemsPerNode)
  {
    var rows := LabelRows(moduleName, bgColor, classes, functions);
    var total := |classes| + |functions|;
    var shown := Min(total, MaxItemsPerNode);
    var front := [Header(moduleName, bgColor)] + ItemRows(classes, functions)[..shown];
    if total > MaxItemsPerNode {
      assert rows[|front|].Overflow?;
    }
    if exists k :: 0 <= k < |rows| && rows[k].Overflow? {
      var k :| 0 <= k < |rows| && rows[k].Overflow?;
      assert !(k < |front|);
    }
    if total == 0 {
      assert rows[|rows| - 1] == Placeholder;
    }
    if Placeholder in rows {
      var k :| 0 <= k < |rows| && rows[k] == Placeholder;
      assert !(k < |front|);
    }
  }

  /** Classes come before functions: no class row follows a function row. */
  lemma ClassesFirst(moduleName: string, bgColor: string, classes: seq<string>, functions: seq<string>)
    ensures var rows := LabelRows(moduleName, bgColor, classes, functions);
            forall i, j :: 0 <= i < j < |rows| && rows[j].ClassRow? ==> rows[i].Header? || rows[i].ClassRow?
  {
    var rows := LabelRows(moduleName, bgColor, classes, functions);
    var shown := Min(|classes| + |functions|, MaxItemsPerNode);
    forall i, j | 0 <= i < j < |rows| && rows[j].ClassRow?
      ensures rows[i].Header? || rows[i].ClassRow?
    {
      assert 1 <= j <= shown && j - 1 < |classes|;
      if i > 0 {
        assert rows[i] == ItemRows(classes, functions)[i - 1];
      }
    }
  }

  // ---------------------------------------------------------------------
  // the layer comment
  // ---------------------------------------------------------------------

  type LayerInfo = ComponentRenderer.LayerInfo

  /** `layer_info` is a dictionary: no package is listed twice. */
  ghost predicate DistinctKeys(info: LayerInfo)
  {
    forall i, j :: 0 <= i < j < |info| ==> info[i].0 != info[j].0
  }

  /** Every layer entry has a `name`. */
  ghost predicate Named(info: LayerInfo)
  {
    forall k :: 0 <= k < |info| ==> "name" in info[k].1
  }

  /** The layer names of the entries, in order. */
  function Names(info: LayerInfo): seq<string>
    requires Named(info)
  {
    if |info| == 0 then [] else Names(info[..|info| - 1]) + [info[|info| - 1].1["name"]]
  }

  /** The distinct elements of `s`, in order of first appearance. */
  function Dedup(s: seq<string>): (r: seq<string>)
    ensures forall x :: x in r <==> x in s
    ensures forall i, j :: 0 <= i < j < |r| ==> r[i] != r[j]
  {
    if |s| == 0 then []
    else
      var d := Dedup(s[..|s| - 1]);
      assert forall x :: x in s <==> x in s[..|s| - 1] || x == s[|s| - 1];
      if s[|s| - 1] in d then d else d + [s[|s| - 1]]
  }

  /** The packages of the layer called `name`, in order. */
  function PackagesNamed(info: LayerInfo, name: string): seq<string>
    requires Named(info)
  {
    if |info| == 0 then []
    else
      PackagesNamed(info[..|info| - 1], name)
      + (if info[|info| - 1].1["name"] == name then [info[|info| - 1].0] else [])
  }

  /** Where the group for `name` sits, if there is one. */
  function IndexOf(groups: seq<(string, seq<string>)>, name: string): (r: Option<nat>)
    ensures r.None? <==> forall i :: 0 <= i < |groups| ==> groups[i].0 != name
    ensures r.Some? ==> r.value < |groups| && groups[r.value].0 == name
  {
    if |groups| == 0 then None
    else if groups[|groups| - 1].0 == name then Some(|groups| - 1)
    else IndexOf(groups[..|groups| - 1], name)
  }

  /** `layers[name].append(pkg)` on a `defaultdict(list)` kept in insertion order. */
  function AddTo(groups: seq<(string, seq<string>)>, name: string, pkg: string): seq<(string, seq<string>)>
  {
    match IndexOf(groups, name)
    case Some(i) => groups[i := (name, groups[i].1 + [pkg])]
    case None => groups + [(name, [pkg])]
  }

  /** The `layers` dictionary the first loop builds. */
  function Groups(info: LayerInfo): seq<(string, seq<string>)>
    requires Named(info)
  {
    if |info| == 0 then []
    else AddTo(Groups(info[..|info| - 1]), info[|info| - 1].1["name"], info[|info| - 1].0)
  }

  lemma {:induction false} PackagesAbsent(info: LayerInfo, name: string)
    requires Named(info) && name !in Names(info)
    ensures PackagesNamed(info, name) == []
  {
    if |info| > 0 {
      PackagesAbsent(info[..|info| - 1], name);
    }
  }

  /** The groups are the distinct layer names, each with the packages of that layer. */
  ghost predicate GroupsMatch(info: LayerInfo)
    requires Named(info)
  {
    var d := Dedup(Names(info));
    |Groups(info)| == |d|
    && forall i :: 0 <= i < |d| ==> Groups(info)[i] == (d[i], PackagesNamed(info, d[i]))
  }

  /**
   * The groups are the distinct layer names in order of first appearance,
   * each with the packages of that layer in order.
   */
  lemma {:induction false} GroupsByFirstAppearance(info: LayerInfo)
    requires Named(info)
    ensures var d := Dedup(Names(info));
            |Groups(info)| == |d|
            && forall i :: 0 <= i < |d| ==> Groups(info)[i] == (d[i], PackagesNamed(info, d[i]))
  {
    if |info| > 0 {
      var init := info[..|info| - 1];
      GroupsByFirstAppearance(init);
      if info[|info| - 1].1["name"] in Dedup(Names(init)) {
        GroupsStepOld(info);
      } else {
        GroupsStepNew(info);
      }
    }
  }

  /** The last entry joins the group of a layer already seen. */
  lemma GroupsStepOld(info: LayerInfo)
    requires Named(info) && |info| > 0
    requires GroupsMatch(info[..|info| - 1])
    requires info[|info| - 1].1["name"] in Dedup(Names(info[..|info| - 1]))
    ensures GroupsMatch(info)
  {
    var init := info[..|info| - 1];
    var p := info[|info| - 1].0;
    var n := info[|info| - 1].1["name"];
    var d0 := Dedup(Names(init));
    var g0 := Groups(init);
    assert Names(info)[..|Names(info)| - 1] == Names(init);
    var d := Dedup(Names(info));
    assert d == d0;
    var i := IndexOf(g0, n).value;
    assert d0[i] == n;
    var g := g0[i := (n, PackagesNamed(init, n) + [p])];
    assert Groups(info) == g;
    forall k | 0 <= k < |d|
      ensures g[k] == (d[k], PackagesNamed(info, d[k]))
    {
      if k != i {
        assert d0[k] != d0[i];
        assert PackagesNamed(info, d[k]) == PackagesNamed(init, d[k]) + [];
        assert PackagesNamed(init, d[k]) + [] == PackagesNamed(init, d[k]);
      }
    }
  }

  /** The last entry opens a new group at the end. */
  lemma GroupsStepNew(info: LayerInfo)
    requires Named(info) && |info| > 0
    requires GroupsMatch(info[..|info| - 1])
    requires info[|info| - 1].1["name"] !in Dedup(Names(info[..|info| - 1]))
    ensures GroupsMatch(info)
  {
    var init := info[..|info| - 1];
    var p := info[|info| - 1].0;
    var n := info[|info| - 1].1["name"];
    var d0 := Dedup(Names(init));
    var g0 := Groups(init);
    assert Names(info)[..|Names(info)| - 1] == Names(init);
    var d := Dedup(Names(info));
    assert IndexOf(g0, n).None?;
    PackagesAbsent(init, n);
    assert d == d0 + [n];
    assert Groups(info) == g0 + [(n, [p])];
    forall k | 0 <= k < |d|
      ensures Groups(info)[k] == (d[k], PackagesNamed(info, d[k]))
    {
      if k < |d0| {
        assert PackagesNamed(info, d[k]) == PackagesNamed(init, d[k]) + [];
        assert PackagesNamed(init, d[k]) + [] == PackagesNamed(init, d[k]);
      } else {
        assert PackagesNamed(info, n) == PackagesNamed(init, n) + [p];
        assert [] + [p] == [p];
      }
    }
  }

  lemma {:induction false} PackageInItsLayer(info: LayerInfo, k: nat)
    requires Named(info) && k < |info|
    ensures info[k].0 in PackagesNamed(info, info[k].1["name"])
    ensures info[k].1["name"] in Names(info)
  {
    var init := info[..|info| - 1];
    if k < |info| - 1 {
      assert init[k] == info[k];
      PackageInItsLayer(init, k);
    }
  }

  lemma {:induction false} PackagesAreKeys(info: LayerInfo, name: string, pkg: string)
    requires Named(info) && pkg in PackagesNamed(info, name)
    ensures exists k :: 0 <= k < |info| && info[k].0 == pkg && info[k].1["name"] == name
  {
    var init := info[..|info| - 1];
    if pkg in PackagesNamed(init, name) {
      PackagesAreKeys(init, name, pkg);
      var k :| 0 <= k < |init| && init[k].0 == pkg && init[k].1["name"] == name;
      assert info[k] == init[k];
    }
  }

  /** Every package is listed under its own layer's group, and only there. */
  lemma PackageListed(info: LayerInfo, k: nat)
    requires Named(info) && k < |info|
    ensures exists g :: 0 <= g < |Groups(info)| && Groups(info)[g].0 == info[k].1["name"] && info[k].0 in Groups(info)[g].1
  {
    GroupsByFirstAppearance(info);
    PackageInItsLayer(info, k);
    var d := Dedup(Names(info));
    var g :| 0 <= g < |d| && d[g] == info[k].1["name"];
    assert Groups(info)[g] == (d[g], PackagesNamed(info, d[g]));
  }

  /** `layer_info[pkg]`, for the entry of `pkg`. */
  function SettingsOf(info: LayerInfo, pkg: string): (r: Option<ComponentRenderer.LayerSettings>)
    ensures r.None? <==> forall k :: 0 <= k < |info| ==> info[k].0 != pkg
    ensures r.Some? ==> exists k :: 0 <= k < |info| && info[k].0 == pkg && r.value == info[k].1
  {
    if |info| == 0 then None
    else if info[|info| - 1].0 == pkg then Some(info[|info| - 1].1)
    else
      var r := SettingsOf(info[..|info| - 1], pkg);
      assert forall k :: 0 <= k < |info| - 1 ==> info[..|info| - 1][k] == info[k];
      r
  }

  /** The package's entry has a `color`. */
  predicate HasColor(info: LayerInfo, pkg: string)
  {
    SettingsOf(info, pkg).Some? && "color" in SettingsOf(info, pkg).value
  }

  function PackageColor(info: LayerInfo, pkg: string): string
  {
    if HasColor(info, pkg) then SettingsOf(info, pkg).value["color"] else ""
  }

  const CommentTitle: string := "// --- Architecture Layers (for LLM Analysis) ---\n"
  const CommentIntro: string := "// This graph visualizes architectural layers from left to right.\n"
  const CommentFooter: string := "// -------------------------------------------------\n"

  function LayerLine(name: string): string
  {
    "// Layer: " + name + "\n"
  }

  function PackageLine(pkg: string, color: string): string
  {
    "//   - Package: " + pkg + ", Color: " + color + "\n"
  }

  function PackageLines(info: LayerInfo, pkgs: seq<string>): (r: seq<string>)
    ensures |r| == |pkgs|
  {
    if |pkgs| == 0 then []
    else PackageLines(info, pkgs[..|pkgs| - 1]) + [PackageLine(pkgs[|pkgs| - 1], PackageColor(info, pkgs[|pkgs| - 1]))]
  }

  /** The number of packages in the groups. */
  function Total(groups: seq<(string, seq<string>)>): nat
  {
    if |groups| == 0 then 0 else Total(groups[..|groups| - 1]) + |groups[|groups| - 1].1|
  }

  function GroupLines(info: LayerInfo, groups: seq<(string, seq<string>)>): (r: seq<string>)
    ensures |r| == |groups| + Total(groups)
  {
    if |groups| == 0 then []
    else
      var g := groups[|groups| - 1];
      GroupLines(info, groups[..|groups| - 1]) + [LayerLine(g.0)] + PackageLines(info, g.1)
  }

  /** The comment's lines: a title, an introduction, each layer with its packages, a footer. */
  function CommentLines(info: LayerInfo): seq<string>
    requires Named(info)
  {
    [CommentTitle, CommentIntro] + GroupLines(info, Groups(info)) + [CommentFooter]
  }

  lemma {:induction false} TotalUpdate(groups: seq<(string, seq<string>)>, i: nat, name: string, pkg: string)
    requires i < |groups|
    ensures Total(groups[i := (name, groups[i].1 + [pkg])]) == Total(groups) + 1
  {
    var g := groups[i := (name, groups[i].1 + [pkg])];
    if i < |groups| - 1 {
      assert g[..|g| - 1] == groups[..|groups| - 1][i := (name, groups[i].1 + [pkg])];
      TotalUpdate(groups[..|groups| - 1], i, name, pkg);
    } else {
      assert g[..|g| - 1] == groups[..|groups| - 1];
    }
  }

  lemma {:induction false} GroupsTotal(info: LayerInfo)
    requires Named(info)
    ensures Total(Groups(info)) == |info|
  {
    if |info| > 0 {
      var init := info[..|info| - 1];
      GroupsTotal(init);
      var g0 := Groups(init);
      var n := info[|info| - 1].1["name"];
      match IndexOf(g0, n)
      case Some(i) =>
        TotalUpdate(g0, i, n, info[|info| - 1].0);
      case None =>
        assert (g0 + [(n, [info[|info| - 1].0])])[..|g0|] == g0;
    }
  }

  /** The comment has its three fixed lines, one line per layer and one per package. */
  lemma CommentLineCount(info: LayerInfo)
    requires Named(info)
    ensures var lines := CommentLines(info);
            |lines| == 3 + |Dedup(Names(info))| + |info|
            && lines[0] == CommentTitle && lines[1] == CommentIntro && lines[|lines| - 1] == CommentFooter
  {
    GroupsTotal(info);
    GroupsByFirstAppearance(info);
  }

  /**
   * `_generate_llm_comment`: groups the packages by layer name, then writes
   * the title and introduction, each layer with its packages and their
   * colours, and the footer. A missing `name` or `color` raises `KeyError`,
   * modelled as `None`.
   */
  method GenerateLlmComment(info: LayerInfo) returns (r: Option<string>)
    requires DistinctKeys(info)
    ensures r.None? <==> exists k :: 0 <= k < |info| && ("name" !in info[k].1 || "color" !in info[k].1)
    ensures r.Some? ==> Named(info) && r.value == Concat(CommentLines(info))
  {
    var grouped := GroupByLayer(info);
    if grouped.None? {
      return None;
    }
    r := WriteComment(info, grouped.value);
  }

  /** The first loop: `layers[info['name']].append(pkg)` for each entry, failing on a missing `name`. */
  method GroupByLayer(info: LayerInfo) returns (r: Option<seq<(string, seq<string>)>>)
    ensures r.None? <==> !Named(info)
    ensures r.Some? ==> Named(info) && r.value == Groups(info)
  {
    var groups: seq<(string, seq<string>)> := [];
    var k := 0;
    while k < |info|
      invariant 0 <= k <= |info|
      invariant Named(info[..k]) && groups == Groups(info[..k])
    {
      if "name" !in info[k].1 {
        return None;
      }
      assert info[..k + 1][..k] == info[..k];
      groups := AddTo(groups, info[k].1["name"], info[k].0);
      k := k + 1;
    }
    assert info[..k] == info;
    return Some(groups);
  }

  /** The second loop: the title, each layer with its packages' lines, the footer. */
  method WriteComment(info: LayerInfo, groups: seq<(string, seq<string>)>) returns (r: Option<string>)
    requires Named(info) && DistinctKeys(info) && groups == Groups(info)
    ensures r.None? <==> exists k :: 0 <= k < |info| && "color" !in info[k].1
    ensures r.Some? ==> r.value == Concat(CommentLines(info))
  {
    var comment := CommentTitle + CommentIntro;
    CommentStart(info, groups);
    var g := 0;
    while g < |groups|
      invariant 0 <= g <= |groups|
      invariant comment == Concat([CommentTitle, CommentIntro] + GroupLines(info, groups[..g]))
      invariant forall a, q :: 0 <= a < g && 0 <= q < |groups[a].1| ==> HasColor(info, groups[a].1[q])
    {
      GroupPackagesAreKeys(info, g);
      var extended := WriteLayer(info, groups[g].0, groups[g].1, comment);
      if extended.None? {
        MissingColor(info, groups[g].1);
        return None;
      }
      CommentStep(info, groups, g);
      comment := extended.value;
      forall a, q | 0 <= a < g + 1 && 0 <= q < |groups[a].1|
        ensures HasColor(info, groups[a].1[q])
      {
      }
      g := g + 1;
    }
    assert groups[..g] == groups;
    ConcatSnoc([CommentTitle, CommentIntro] + GroupLines(info, groups), CommentFooter);
    comment := comment + CommentFooter;
    EveryEntryColored(info);
    return Some(comment);
  }

  lemma CommentStart(info: LayerInfo, groups: seq<(string, seq<string>)>)
    ensures Concat([CommentTitle, CommentIntro] + GroupLines(info, groups[..0])) == CommentTitle + CommentIntro
  {
    assert GroupLines(info, groups[..0]) == [];
    assert [CommentTitle, CommentIntro] + [] == [CommentTitle, CommentIntro];
    ConcatSnoc([], CommentTitle);
    ConcatSnoc([CommentTitle], CommentIntro);
    assert [] + [CommentTitle] == [CommentTitle];
    assert [CommentTitle] + [CommentIntro] == [CommentTitle, CommentIntro];
  }

  /** One more layer appends its line and its packages' lines. */
  lemma CommentStep(info: LayerInfo, groups: seq<(string, seq<string>)>, g: nat)
    requires g < |groups|
    ensures Concat([CommentTitle, CommentIntro] + GroupLines(info, groups[..g + 1]))
            == Concat([CommentTitle, CommentIntro] + GroupLines(info, groups[..g]))
               + LayerLine(groups[g].0) + Concat(PackageLines(info, groups[g].1))
  {
    var head := [CommentTitle, CommentIntro];
    var before := GroupLines(info, groups[..g]);
    var layer := LayerLine(groups[g].0);
    var pkgs := PackageLines(info, groups[g].1);
    assert groups[..g + 1][..g] == groups[..g];
    assert GroupLines(info, groups[..g + 1]) == before + [layer] + pkgs;
    AppendAssoc(head, before + [layer], pkgs);
    AppendAssoc(head, before, [layer]);
    ConcatAppend(head + before + [layer], pkgs);
    ConcatSnoc(head + before, layer);
  }

  /** A failed layer names an entry without a `color`. */
  lemma MissingColor(info: LayerInfo, pkgs: seq<string>)
    requires forall q :: 0 <= q < |pkgs| ==> SettingsOf(info, pkgs[q]).Some?
    requires exists q :: 0 <= q < |pkgs| && !HasColor(info, pkgs[q])
    ensures exists k :: 0 <= k < |info| && "color" !in info[k].1
  {
    var q :| 0 <= q < |pkgs| && !HasColor(info, pkgs[q]);
    var j :| 0 <= j < |info| && info[j].0 == pkgs[q] && SettingsOf(info, pkgs[q]).value == info[j].1;
  }

  /** `comment += f"// Layer: {name}\n"` and the inner loop over the layer's packages. */
  method WriteLayer(info: LayerInfo, name: string, pkgs: seq<string>, comment: string) returns (r: Option<string>)
    requires forall q :: 0 <= q < |pkgs| ==> SettingsOf(info, pkgs[q]).Some?
    ensures r.None? <==> exists q :: 0 <= q < |pkgs| && !HasColor(info, pkgs[q])
    ensures r.Some? ==> r.value == comment + LayerLine(name) + Concat(PackageLines(info, pkgs))
  {
    r := AppendPackages(info, pkgs, comment + LayerLine(name));
  }

  /** The packages of a group are all keys of `layer_info`. */
  lemma GroupPackagesAreKeys(info: LayerInfo, g: nat)
    requires Named(info) && g < |Groups(info)|
    ensures forall q :: 0 <= q < |Groups(info)[g].1| ==> SettingsOf(info, Groups(info)[g].1[q]).Some?
  {
    GroupsByFirstAppearance(info);
    var name := Groups(info)[g].0;
    forall q | 0 <= q < |Groups(info)[g].1|
      ensures SettingsOf(info, Groups(info)[g].1[q]).Some?
    {
      PackagesAreKeys(info, name, Groups(info)[g].1[q]);
    }
  }

  /** When every grouped package has a colour, so does every entry. */
  lemma EveryEntryColored(info: LayerInfo)
    requires Named(info) && DistinctKeys(info)
    requires forall a, q :: 0 <= a < |Groups(info)| && 0 <= q < |Groups(info)[a].1| ==> HasColor(info, Groups(info)[a].1[q])
    ensures forall k :: 0 <= k < |info| ==> "color" in info[k].1
  {
    forall k | 0 <= k < |info|
      ensures "color" in info[k].1
    {
      PackageListed(info, k);
      var groups := Groups(info);
      var a :| 0 <= a < |groups| && groups[a].0 == info[k].1["name"] && info[k].0 in groups[a].1;
      var q :| 0 <= q < |groups[a].1| && groups[a].1[q] == info[k].0;
      assert HasColor(info, info[k].0);
      var j :| 0 <= j < |info| && info[j].0 == info[k].0 && SettingsOf(info, info[k].0).value == info[j].1;
      assert j == k;
    }
  }

  /** The comment after the first `q + 1` packages: after the first `q`, then package `q`'s line. */
  lemma PackageStep(info: LayerInfo, pkgs: seq<string>, q: nat, comment: string)
    requires q < |pkgs|
    ensures comment + Concat(PackageLines(info, pkgs[..q + 1]))
            == comment + Concat(PackageLines(info, pkgs[..q])) + PackageLine(pkgs[q], PackageColor(info, pkgs[q]))
  {
    var line := PackageLine(pkgs[q], PackageColor(info, pkgs[q]));
    assert pkgs[..q + 1][..q] == pkgs[..q];
    assert PackageLines(info, pkgs[..q + 1]) == PackageLines(info, pkgs[..q]) + [line];
    ConcatSnoc(PackageLines(info, pkgs[..q]), line);
    AppendAssoc(comment, Concat(PackageLines(info, pkgs[..q])), line);
  }

  /** The body of the inner loop: the package's line with its layer's colour, or failure on a missing `color`. */
  method AppendPackage(info: LayerInfo, pkg: string, comment: string) returns (r: Option<string>)
    requires SettingsOf(info, pkg).Some?
    ensures r.None? <==> !HasColor(info, pkg)
    ensures r.Some? ==> r.value == comment + PackageLine(pkg, PackageColor(info, pkg))
  {
    var settings := SettingsOf(info, pkg).value;
    if "color" !in settings {
      return None;
    }
    return Some(comment + PackageLine(pkg, settings["color"]));
  }

  /** The inner loop: appends one line per package with its colour, or fails on a missing `color`. */
  method AppendPackages(info: LayerInfo, pkgs: seq<string>, comment: string) returns (r: Option<string>)
    requires forall q :: 0 <= q < |pkgs| ==> SettingsOf(info, pkgs[q]).Some?
    ensures r.None? <==> exists q :: 0 <= q < |pkgs| && !HasColor(info, pkgs[q])
    ensures r.Some? ==> r.value == comment + Concat(PackageLines(info, pkgs))
  {
    var out := comment;
    var q := 0;
    while q < |pkgs|
      invariant 0 <= q <= |pkgs|
      invariant out == comment + Concat(PackageLines(info, pkgs[..q]))
      invariant forall q' :: 0 <= q' < q ==> HasColor(info, pkgs[q'])
    {
      var next := AppendPackage(info, pkgs[q], out);
      if next.None? {
        return None;
      }
      PackageStep(info, pkgs, q, comment);
      forall q' | 0 <= q' <= q ensures HasColor(info, pkgs[q']) {
        if q' < q {
          assert HasColor(info, pkgs[q']);
        }
      }
      out := next.value;
      q := q + 1;
    }
    assert pkgs[..q] == pkgs;
    return Some(out);
  }
}
