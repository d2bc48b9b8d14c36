/**
 * Dotted fully qualified names. The builders and the semantic analyser all
 * walk the proper dotted prefixes of a name from the longest down to the
 * first segment and stop at the first one found in a set of names.
 */
module Fqn {
  import opened Wrappers
  import opened Strings

  /** The first `k` segments of `parts`, joined by dots. */
  function PrefixOf(parts: seq<string>, k: nat): string
    requires k <= |parts|
  {
    Join(parts[..k], '.')
  }

  /**
   * `for i in range(hi, 0, -1): if ".".join(parts[:i]) in names: return i`,
   * with 0 when the loop finds nothing.
   */
  function LongestPrefixIndex(parts: seq<string>, hi: nat, names: set<string>): (k: nat)
    requires hi <= |parts|
    ensures k <= hi
    ensures k > 0 ==> PrefixOf(parts, k) in names
    ensures forall j :: k < j <= hi ==> PrefixOf(parts, j) !in names
  {
    if hi == 0 then 0
    else if PrefixOf(parts, hi) in names then hi
    else LongestPrefixIndex(parts, hi - 1, names)
  }

  /** The proper dotted prefixes of `path`: its first 1 .. n-1 segments. */
  ghost predicate IsProperPrefix(path: string, p: string)
  {
    var parts := Split(path, '.');
    exists k :: 1 <= k < |parts| && p == PrefixOf(parts, k)
  }

  /** Some proper dotted prefix of `path` is in `names`. */
  ghost predicate HasProperPrefixIn(path: string, names: set<string>)
  {
    var parts := Split(path, '.');
    exists k :: 1 <= k < |parts| && PrefixOf(parts, k) in names
  }

  /** `p` is in `names` and is the longest proper dotted prefix of `path` that is. */
  ghost predicate IsLongestProperPrefixIn(path: string, names: set<string>, p: string)
  {
    var parts := Split(path, '.');
    exists k :: 1 <= k < |parts| && p == PrefixOf(parts, k) && p in names
      && forall j :: k < j < |parts| ==> PrefixOf(parts, j) !in names
  }

  /** There is only one longest proper prefix in a set. */
  lemma LongestProperPrefixUnique(path: string, names: set<string>, p: string, q: string)
    requires IsLongestProperPrefixIn(path, names, p)
    requires IsLongestProperPrefixIn(path, names, q)
    ensures p == q
  {
    var parts := Split(path, '.');
    var k :| 1 <= k < |parts| && p == PrefixOf(parts, k) && p in names
      && forall j :: k < j < |parts| ==> PrefixOf(parts, j) !in names;
    var l :| 1 <= l < |parts| && q == PrefixOf(parts, l) && q in names
      && forall j :: l < j < |parts| ==> PrefixOf(parts, j) !in names;
    assert k == l;
  }

  /**
   * The longest proper dotted prefix of `path` that is in `names`, if any.
   * Shared by `_get_component_for_path`, `_get_module_path_from_func_path`
   * and `_resolve_to_public_component`.
   */
  function LongestProperPrefixIn(path: string, names: set<string>): (r: Option<string>)
    ensures r.Some? <==> HasProperPrefixIn(path, names)
    ensures r.Some? ==> IsLongestProperPrefixIn(path, names, r.value)
  {
    var parts := Split(path, '.');
    var k := LongestPrefixIndex(parts, |parts| - 1, names);
    if k > 0 then Some(PrefixOf(parts, k))
    else None
  }

  /** A proper dotted prefix, followed by a dot, begins the full name. */
  lemma {:induction false} PrefixOfJoin(parts: seq<string>, k: nat)
    requires 1 <= k < |parts|
    ensures PrefixOf(parts, k) + "." + Join(parts[k..], '.') == Join(parts, '.')
  {
    if k == 1 {
      assert parts[..1] == [parts[0]];
      assert parts == [parts[0]] + parts[1..];
      JoinCons(parts[0], parts[1..], '.');
    } else {
      PrefixOfJoin(parts[1..], k - 1);
      assert parts[1..][k - 1..] == parts[k..];
      assert parts[1..][..k - 1] == parts[..k][1..];
      assert parts[..k] == [parts[0]] + parts[..k][1..];
      JoinCons(parts[0], parts[..k][1..], '.');
      assert parts == [parts[0]] + parts[1..];
      JoinCons(parts[0], parts[1..], '.');
    }
  }

  /** Every proper dotted prefix of a name is a string prefix of it. */
  lemma ProperPrefixIsPrefix(path: string, p: string)
    requires IsProperPrefix(path, p)
    ensures p + "." <= path
  {
    var parts := Split(path, '.');
    var k :| 1 <= k < |parts| && p == PrefixOf(parts, k);
    PrefixOfJoin(parts, k);
    JoinSplit(path, '.');
  }
}
