/**
 * Python's `sorted(...)`, in the two forms the analyser uses: sorting a set of
 * values under a strict total order (duplicate-free result), and sorting a list
 * by a total preorder (stable, a permutation of the input). Also the orders
 * Python uses on strings and on pairs of strings.
 */
module Sorting {
  import opened Strings

  ghost predicate StrictTotalOrder<T(!new)>(lt: (T, T) -> bool)
  {
    && (forall x :: !lt(x, x))
    && (forall x, y, z :: lt(x, y) && lt(y, z) ==> lt(x, z))
    && (forall x, y :: x != y ==> lt(x, y) || lt(y, x))
  }

  ghost predicate TotalPreorder<T(!new)>(le: (T, T) -> bool)
  {
    && (forall x, y :: le(x, y) || le(y, x))
    && (forall x, y, z :: le(x, y) && le(y, z) ==> le(x, z))
  }

  /** Every element is strictly below every later one: sorted and duplicate-free. */
  ghost predicate StrictlySorted<T>(s: seq<T>, lt: (T, T) -> bool)
  {
    forall i, j :: 0 <= i < j < |s| ==> lt(s[i], s[j])
  }

  ghost predicate Sorted<T>(s: seq<T>, le: (T, T) -> bool)
  {
    forall i, j :: 0 <= i < j < |s| ==> le(s[i], s[j])
  }

  /** Python's order on strings. */
  lemma StringOrder()
    ensures StrictTotalOrder(Less)
  {
    forall x | true ensures !Less(x, x) { LessIrreflexive(x); }
    forall x, y, z | Less(x, y) && Less(y, z) ensures Less(x, z) { LessTransitive(x, y, z); }
    forall x, y | x != y ensures Less(x, y) || Less(y, x) { LessTotal(x, y); }
  }

  /** The non-strict order on strings that `sorted` uses on lists of names. */
  predicate StringLe(a: string, b: string)
  {
    a == b || Less(a, b)
  }

  lemma StringPreorder()
    ensures TotalPreorder(StringLe)
  {
    StringOrder();
  }

  /** Python's order on `(str, str)` tuples: by first component, then second. */
  predicate PairLess(a: (string, string), b: (string, string))
  {
    Less(a.0, b.0) || (a.0 == b.0 && Less(a.1, b.1))
  }

  lemma PairOrder()
    ensures StrictTotalOrder(PairLess)
  {
    StringOrder();
  }

  /** The non-strict order on pairs that `sorted` uses on lists of tuples. */
  predicate PairLe(a: (string, string), b: (string, string))
  {
    a == b || PairLess(a, b)
  }

  lemma PairPreorder()
    ensures TotalPreorder(PairLe)
  {
    PairOrder();
  }

  /** Inserts `x`, absent from the strictly sorted `s`, at its place. */
  method Insert<T(==,!new)>(s: seq<T>, x: T, lt: (T, T) -> bool) returns (r: seq<T>)
    requires StrictTotalOrder(lt)
    requires StrictlySorted(s, lt)
    requires x !in s
    ensures StrictlySorted(r, lt)
    ensures multiset(r) == multiset(s) + multiset{x}
  {
    var i := 0;
    while i < |s| && lt(s[i], x)
      invariant 0 <= i <= |s|
      invariant forall j :: 0 <= j < i ==> lt(s[j], x)
    {
      i := i + 1;
    }
    r := s[..i] + [x] + s[i..];
    assert s == s[..i] + s[i..];
    InsertedSorted(s, x, i, lt);
  }

  /** Putting `x` after the elements below it and before the rest keeps a strictly sorted list so. */
  lemma InsertedSorted<T(!new)>(s: seq<T>, x: T, i: nat, lt: (T, T) -> bool)
    requires StrictTotalOrder(lt)
    requires StrictlySorted(s, lt)
    requires x !in s && i <= |s|
    requires forall j :: 0 <= j < i ==> lt(s[j], x)
    requires i < |s| ==> !lt(s[i], x)
    ensures StrictlySorted(s[..i] + [x] + s[i..], lt)
  {
    var r := s[..i] + [x] + s[i..];
    forall j | i <= j < |s| ensures lt(x, s[j]) {
      assert s[i] != x;
      if j > i { assert lt(s[i], s[j]); }
    }
    forall p, q | 0 <= p < q < |r| ensures lt(r[p], r[q]) {
      if q < i {
        assert r[p] == s[p] && r[q] == s[q];
      } else if q == i {
        assert r[p] == s[p] && r[q] == x;
      } else if p < i {
        assert r[p] == s[p] && r[q] == s[q - 1];
      } else if p == i {
        assert r[p] == x && r[q] == s[q - 1];
      } else {
        assert r[p] == s[p - 1] && r[q] == s[q - 1];
      }
    }
  }

  /** `sorted(s)` for a set: the elements of `s`, each once, in increasing order. */
  method SortSet<T(==,!new)>(s: set<T>, lt: (T, T) -> bool) returns (r: seq<T>)
    requires StrictTotalOrder(lt)
    ensures StrictlySorted(r, lt)
    ensures forall x :: x in r <==> x in s
    ensures |r| == |s|
  {
    r := [];
    var rest := s;
    while rest != {}
      invariant rest <= s
      invariant StrictlySorted(r, lt)
      invariant forall x :: x in r <==> x in s && x !in rest
      invariant |r| + |rest| == |s|
      decreases |rest|
    {
      var x :| x in rest;
      ghost var before := r;
      r := Insert(r, x, lt);
      assert forall y :: y in r <==> y in multiset(r);
      assert forall y :: y in before <==> y in multiset(before);
      assert |r| == |before| + 1 by {
        assert |multiset(r)| == |multiset(before)| + 1;
      }
      rest := rest - {x};
    }
  }

  /** Inserts `x` into the sorted `s` after every element not above it. */
  method InsertStable<T(!new)>(s: seq<T>, x: T, le: (T, T) -> bool) returns (r: seq<T>)
    requires TotalPreorder(le)
    requires Sorted(s, le)
    ensures Sorted(r, le)
    ensures multiset(r) == multiset(s) + multiset{x}
  {
    var i := 0;
    while i < |s| && le(s[i], x)
      invariant 0 <= i <= |s|
      invariant forall j :: 0 <= j < i ==> le(s[j], x)
    {
      i := i + 1;
    }
    r := s[..i] + [x] + s[i..];
    assert s == s[..i] + s[i..];
    forall j | i <= j < |s| ensures le(x, s[j]) {
      if j > i { assert le(s[i], s[j]); }
    }
  }

  /** `sorted(s, key=...)` for a list: a sorted permutation of `s`. */
  method SortSeq<T(!new)>(s: seq<T>, le: (T, T) -> bool) returns (r: seq<T>)
    requires TotalPreorder(le)
    ensures Sorted(r, le)
    ensures multiset(r) == multiset(s)
  {
    r := [];
    var k := 0;
    while k < |s|
      invariant 0 <= k <= |s|
      invariant Sorted(r, le)
      invariant multiset(r) == multiset(s[..k])
    {
      r := InsertStable(r, s[k], le);
      assert s[..k + 1] == s[..k] + [s[k]];
      k := k + 1;
    }
    assert s[..k] == s;
  }
}
