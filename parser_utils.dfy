/**
 * The noise filter shared by the parsers (utils/parser_utils.py): a fully
 * qualified name is noise when it is empty, starts with one of the global
 * ignore prefixes, or starts with one of the caller's extra prefixes.
 */
module ParserUtils {
  import opened Strings

  /** `GLOBAL_IGNORE_PREFIXES`, in the source's groups: built-ins and the core standard library. */
  const CorePrefixes: seq<string> := [
    "builtins.",
    "typing.", "collections.", "functools.", "itertools.", "operator.", "contextlib.", "enum.", "abc.",
    "types.", "copy.", "weakref.", "dataclasses.", "colorsys.", "importlib."
  ]

  /** Runtime and mathematics. */
  const RuntimePrefixes: seq<string> := [
    "sys.", "warnings.", "inspect.", "traceback.", "gc.", "atexit.",
    "math.", "cmath.", "decimal.", "fractions.", "random.", "statistics.", "numbers."
  ]

  /** Text processing, dates and times. */
  const TextTimePrefixes: seq<string> := [
    "string.", "re.", "difflib.", "textwrap.", "unicodedata.", "struct.", "codecs.",
    "datetime.", "time.", "calendar.", "zoneinfo."
  ]

  /** Files and paths, logging, compatibility libraries and the `libcst` matcher DSL. */
  const SystemPrefixes: seq<string> := [
    "pathlib.", "os.path.", "shutil.", "glob.", "fnmatch.", "os.",
    "logging.", "pprint.", "pdb.",
    "six.", "typing_extensions.", "attr.", "attrs.",
    "libcst.matchers"
  ]

  /** The whole tuple, in order. */
  const GlobalIgnorePrefixes: seq<string> := CorePrefixes + RuntimePrefixes + TextTimePrefixes + SystemPrefixes

  /** `DECORATOR_IGNORE_PREFIXES`: the extra prefixes used for decorators. */
  const DecoratorIgnorePrefixes: seq<string> := [
    "click.", "pytest.", "builtins.staticmethod", "builtins.classmethod", "builtins.property", "property"
  ]

  /** `is_noise`: empty, or a global ignore prefix, or, when there are any, an extra prefix. */
  function IsNoise(fqn: string, extraPrefixes: seq<string>): (r: bool)
    ensures fqn == "" ==> r
    ensures r <==> fqn == "" || StartsWithAny(fqn, GlobalIgnorePrefixes) || StartsWithAny(fqn, extraPrefixes)
  {
    if fqn == "" then true
    else if StartsWithAny(fqn, GlobalIgnorePrefixes) then true
    else |extraPrefixes| > 0 && StartsWithAny(fqn, extraPrefixes)
  }

  /** Everything under a noisy name is noise: extending a non-empty noisy name keeps it noisy. */
  lemma NoiseExtends(fqn: string, longer: string, extraPrefixes: seq<string>)
    requires fqn != "" && IsNoise(fqn, extraPrefixes) && fqn <= longer
    ensures IsNoise(longer, extraPrefixes)
  {
    if StartsWithAny(fqn, GlobalIgnorePrefixes) {
      var i :| 0 <= i < |GlobalIgnorePrefixes| && GlobalIgnorePrefixes[i] <= fqn;
      assert GlobalIgnorePrefixes[i] <= longer;
    } else {
      var i :| 0 <= i < |extraPrefixes| && extraPrefixes[i] <= fqn;
      assert extraPrefixes[i] <= longer;
    }
  }

  /** More extra prefixes filter more: noise under some extra prefixes stays noise under a superset of them. */
  lemma MoreExtraPrefixes(fqn: string, extra: seq<string>, more: seq<string>)
    requires forall p :: p in extra ==> p in more
    requires IsNoise(fqn, extra)
    ensures IsNoise(fqn, more)
  {
    if fqn != "" && !StartsWithAny(fqn, GlobalIgnorePrefixes) {
      var i :| 0 <= i < |extra| && extra[i] <= fqn;
      assert extra[i] in extra;
      var j :| 0 <= j < |more| && more[j] == extra[i];
      assert more[j] <= fqn;
    }
  }

  /** Every global prefix has at least three characters. */
  lemma GlobalPrefixesLong()
    ensures forall i :: 0 <= i < |GlobalIgnorePrefixes| ==> |GlobalIgnorePrefixes[i]| >= 3
  {
    assert forall i :: 0 <= i < |CorePrefixes| ==> |CorePrefixes[i]| >= 3;
    assert forall i :: 0 <= i < |RuntimePrefixes| ==> |RuntimePrefixes[i]| >= 3;
    assert forall i :: 0 <= i < |TextTimePrefixes| ==> |TextTimePrefixes[i]| >= 3;
    assert forall i :: 0 <= i < |SystemPrefixes| ==> |SystemPrefixes[i]| >= 3;
  }

  /** No global prefix is a prefix of `os`. */
  lemma OsNotGlobal()
    ensures !StartsWithAny("os", GlobalIgnorePrefixes)
  {
    GlobalPrefixesLong();
  }

  /**
   * The prefixes are raw string prefixes: `os.path.join` is noise, `os`
   * alone is not, and `libcst.matchers`, without a trailing dot, matches
   * the module itself.
   */
  lemma RawPrefixes()
    ensures IsNoise("os.path.join", [])
    ensures !IsNoise("os", [])
    ensures IsNoise("libcst.matchers", [])
  {
    assert GlobalIgnorePrefixes[|CorePrefixes| + |RuntimePrefixes| + |TextTimePrefixes| + 5] == "os.";
    assert "os." <= "os.path.join";
    OsNotGlobal();
    assert GlobalIgnorePrefixes[|GlobalIgnorePrefixes| - 1] == "libcst.matchers";
  }
}
