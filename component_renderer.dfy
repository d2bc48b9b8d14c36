/**
 * The pure decisions of the component-graph renderer
 * (renderers/component_renderer.py): which layer colour a node gets, how
 * its label drops the root package and splits into a path part and a main
 * part, how wide an entrypoint's border is, how many line breaks a
 * docstring's spacing buys, and which ranking groups the layout uses when
 * the user gives none. Building the DOT text and running Graphviz are not
 * modelled.
 */
module ComponentRenderer {
  import opened Wrappers
  import Strings
  import Sorting

  /** A layer's settings, such as its `color` and `name`. */
  type LayerSettings = map<string, string>

  /** `layer_info`, as its entries in the dictionary's order. */
  type LayerInfo = seq<(string, LayerSettings)>

  const RootLayerKey: string := "(root)"
  const DefaultNodeColor: string := "#E6F7FF"

  /** A layer's `color`, or the default when it has none. */
  function ColorOf(settings: LayerSettings): string
  {
    if "color" in settings then settings["color"] else DefaultNodeColor
  }

  /** A node lies in a (non-root) layer when its name starts with `root.layer.`. */
  predicate InLayer(node: string, rootPackage: string, entry: (string, LayerSettings))
  {
    entry.0 != RootLayerKey && rootPackage + "." + entry.0 + "." <= node
  }

  /** The colour of the first layer from position `i` on that holds the node. */
  function FirstLayerColor(node: string, rootPackage: string, layers: LayerInfo, i: nat): (r: Option<string>)
    requires i <= |layers|
    ensures r.None? <==> forall j :: i <= j < |layers| ==> !InLayer(node, rootPackage, layers[j])
    ensures r.Some? ==> exists j :: i <= j < |layers| && InLayer(node, rootPackage, layers[j])
                                    && r.value == ColorOf(layers[j].1)
                                    && forall k :: i <= k < j ==> !InLayer(node, rootPackage, layers[k])
    decreases |layers| - i
  {
    if i == |layers| then None
    else if InLayer(node, rootPackage, layers[i]) then Some(ColorOf(layers[i].1))
    else FirstLayerColor(node, rootPackage, layers, i + 1)
  }

  /** The `(root)` layer's colour from position `i` on, if there is such a layer. */
  function RootLayerColor(layers: LayerInfo, i: nat): (r: Option<string>)
    requires i <= |layers|
    ensures r.None? <==> forall j :: i <= j < |layers| ==> layers[j].0 != RootLayerKey
    ensures r.Some? ==> exists j :: i <= j < |layers| && layers[j].0 == RootLayerKey && r.value == ColorOf(layers[j].1)
    decreases |layers| - i
  {
    if i == |layers| then None
    else if layers[i].0 == RootLayerKey then Some(ColorOf(layers[i].1))
    else RootLayerColor(layers, i + 1)
  }

  /** `_get_node_color`: the first matching layer's colour, else the `(root)` layer's, else the default. */
  function NodeColor(node: string, rootPackage: string, layers: LayerInfo): (r: string)
    ensures r == DefaultNodeColor || exists j :: 0 <= j < |layers| && r == ColorOf(layers[j].1)
  {
    match FirstLayerColor(node, rootPackage, layers, 0)
    case Some(c) => c
    case None => RootLayerColor(layers, 0).GetOr(DefaultNodeColor)
  }

  /** A node inside a layer takes the colour of the first layer, in order, that holds it. */
  lemma LayerColorWins(node: string, rootPackage: string, layers: LayerInfo, j: nat)
    requires j < |layers| && InLayer(node, rootPackage, layers[j])
    requires forall k :: 0 <= k < j ==> !InLayer(node, rootPackage, layers[k])
    ensures NodeColor(node, rootPackage, layers) == ColorOf(layers[j].1)
  {
    var r := FirstLayerColor(node, rootPackage, layers, 0);
    var j' :| 0 <= j' < |layers| && InLayer(node, rootPackage, layers[j'])
              && r.value == ColorOf(layers[j'].1)
              && forall k :: 0 <= k < j' ==> !InLayer(node, rootPackage, layers[k]);
    assert !(j' < j) && !(j < j');
  }

  /** A node in no layer takes the colour of the `(root)` layer, or the default when there is none. */
  lemma OutsideLayersColor(node: string, rootPackage: string, layers: LayerInfo)
    requires forall j :: 0 <= j < |layers| ==> !InLayer(node, rootPackage, layers[j])
    ensures (forall j :: 0 <= j < |layers| ==> layers[j].0 != RootLayerKey) ==>
            NodeColor(node, rootPackage, layers) == DefaultNodeColor
    ensures (exists j :: 0 <= j < |layers| && layers[j].0 == RootLayerKey) ==>
            exists j :: 0 <= j < |layers| && layers[j].0 == RootLayerKey
                        && NodeColor(node, rootPackage, layers) == ColorOf(layers[j].1)
  {
  }

  /** The `(root)` layer colours only nodes outside every other layer, even those named under `root.(root).`. */
  lemma RootLayerNeverMatches(node: string, rootPackage: string, settings: LayerSettings)
    ensures NodeColor(node, rootPackage, [(RootLayerKey, settings)]) == ColorOf(settings)
  {
    assert !InLayer(node, rootPackage, (RootLayerKey, settings));
  }

  // ---------------------------------------------------------------------
  // labels
  // ---------------------------------------------------------------------

  /** The node name without the leading `root.`, which is dropped only when present. */
  function StripRootPackage(node: string, rootPackage: string): (r: string)
    ensures |r| <= |node|
    ensures rootPackage + "." <= node ==> node == rootPackage + "." + r
  {
    var p := rootPackage + ".";
    if p <= node then node[|p|..] else node
  }

  /** Stripping undoes prefixing, and a name outside the root package is kept whole. */
  lemma StripRootRoundTrip(rootPackage: string, rest: string, other: string)
    ensures StripRootPackage(rootPackage + "." + rest, rootPackage) == rest
    ensures !(rootPackage + "." <= other) ==> StripRootPackage(other, rootPackage) == other
  {
    var p := rootPackage + ".";
    assert (rootPackage + "." + rest)[..|p|] == p;
    assert (rootPackage + "." + rest)[|p|..] == rest;
  }

  /** The position of the last `.` of `s`, if any. */
  function LastDot(s: string): (r: Option<nat>)
    ensures r.None? <==> '.' !in s
    ensures r.Some? ==> r.value < |s| && s[r.value] == '.' && '.' !in s[r.value + 1..]
  {
    if |s| == 0 then None
    else if s[|s| - 1] == '.' then Some(|s| - 1)
    else
      var r := LastDot(s[..|s| - 1]);
      assert s == s[..|s| - 1] + [s[|s| - 1]];
      if r.Some? then
        assert s[r.value + 1..] == s[..|s| - 1][r.value + 1..] + [s[|s| - 1]];
        r
      else r
  }

  /**
   * The title's two parts: `rsplit(".", 1)` with the dot kept on the path
   * part, or an empty path part when there is no dot.
   */
  function SplitTitle(simple: string): (r: (string, string))
    ensures r.0 + r.1 == simple
    ensures '.' !in r.1
    ensures r.0 == "" <==> '.' !in simple
    ensures r.0 != "" ==> r.0[|r.0| - 1] == '.'
  {
    match LastDot(simple)
    case None => ("", simple)
    case Some(k) =>
      assert simple[..k + 1] + simple[k + 1..] == simple;
      assert simple[..k + 1][k] == '.';
      (simple[..k + 1], simple[k + 1..])
  }

  /** Putting a dot-free name under a dotted path splits back into that path and name. */
  lemma SplitTitleRoundTrip(path: string, main: string)
    requires '.' !in main
    ensures SplitTitle(path + "." + main) == (path + ".", main)
  {
    var s := path + "." + main;
    var r := SplitTitle(s);
    var k := LastDot(s).value;
    assert s[|path|] == '.';
    assert s[..k + 1] == path + ".";
    assert s[k + 1..] == main;
  }

  /** `BORDER` of a node's table: 3 for an entrypoint, 0 otherwise. */
  function BorderWidth(isEntrypoint: bool): (r: nat)
    ensures r > 0 <==> isEntrypoint
  {
    if isEntrypoint then 3 else 0
  }

  /**
   * The number of `<BR/>` before a docstring: `spacing // 4` breaks, which
   * Python's string repetition turns into none when the quotient is negative.
   */
  function BreakCount(spacing: int): (r: nat)
    ensures spacing >= 0 ==> 4 * r <= spacing < 4 * r + 4
    ensures spacing < 4 ==> r == 0
  {
    if spacing / 4 < 0 then 0 else spacing / 4
  }

  // ---------------------------------------------------------------------
  // ranking groups
  // ---------------------------------------------------------------------

  /**
   * The ranking groups the layout uses: the user's when given; with none
   * and the `dot` engine, one singleton group per module in sorted order;
   * otherwise none.
   */
  method FinalRankingGroups(userGroups: Option<seq<seq<string>>>, layoutEngine: string, modules: set<string>)
    returns (groups: seq<seq<string>>)
    ensures userGroups.Some? ==> groups == userGroups.value
    ensures userGroups.None? && layoutEngine != "dot" ==> groups == []
    ensures userGroups.None? && layoutEngine == "dot" ==>
              |groups| == |modules|
              && (forall i :: 0 <= i < |groups| ==> |groups[i]| == 1 && groups[i][0] in modules)
              && (forall m :: m in modules ==> exists i :: 0 <= i < |groups| && groups[i] == [m])
              && (forall i, j :: 0 <= i < j < |groups| ==> Strings.Less(groups[i][0], groups[j][0]))
  {
    if userGroups.Some? {
      return userGroups.value;
    }
    if layoutEngine != "dot" {
      return [];
    }
    Sorting.StringOrder();
    var sorted := Sorting.SortSet(modules, Strings.Less);
    groups := [];
    var i := 0;
    while i < |sorted|
      invariant 0 <= i <= |sorted|
      invariant |groups| == i
      invariant forall k :: 0 <= k < i ==> groups[k] == [sorted[k]]
    {
      groups := groups + [[sorted[i]]];
      i := i + 1;
    }
    forall m | m in modules
      ensures exists i :: 0 <= i < |groups| && groups[i] == [m]
    {
      var k :| 0 <= k < |sorted| && sorted[k] == m;
      assert groups[k] == [m];
    }
  }
}
