/**
 * Order-preserving selection over sequences: the `Array.prototype.filter` the stores and the
 * product grid use, and the first-occurrence deduplication of `[...new Set(xs)]`.
 */
module Sequences {

  /** r is obtained from s by deleting elements: either the last element of s is the last
      element of r, or it is dropped. */
  ghost predicate SubseqOf<T>(r: seq<T>, s: seq<T>)
    decreases |s|
  {
    if r == [] then true
    else if s == [] then false
    else (r[|r| - 1] == s[|s| - 1] && SubseqOf(r[..|r| - 1], s[..|s| - 1])) || SubseqOf(r, s[..|s| - 1])
  }

  lemma {:induction false} SubseqRefl<T>(s: seq<T>)
    ensures SubseqOf(s, s)
    decreases |s|
  {
    if s != [] {
      SubseqRefl(s[..|s| - 1]);
    }
  }

  lemma {:induction false} SubseqTrans<T>(a: seq<T>, b: seq<T>, c: seq<T>)
    requires SubseqOf(a, b) && SubseqOf(b, c)
    ensures SubseqOf(a, c)
    decreases |c|
  {
    if a != [] {
      assert b != [] && c != [];
      var c' := c[..|c| - 1];
      if SubseqOf(b, c') {
        SubseqTrans(a, b, c');
      } else {
        assert b[|b| - 1] == c[|c| - 1] && SubseqOf(b[..|b| - 1], c');
        if a[|a| - 1] == b[|b| - 1] && SubseqOf(a[..|a| - 1], b[..|b| - 1]) {
          SubseqTrans(a[..|a| - 1], b[..|b| - 1], c');
        } else {
          SubseqTrans(a, b[..|b| - 1], c');
        }
      }
    }
  }

  /** Every prefix is a subsequence. */
  lemma {:induction false} PrefixSubseq<T>(s: seq<T>, n: nat)
    requires n <= |s|
    ensures SubseqOf(s[..n], s)
    decreases |s|
  {
    if n == |s| {
      assert s[..n] == s;
      SubseqRefl(s);
    } else {
      PrefixSubseq(s[..|s| - 1], n);
      assert s[..|s| - 1][..n] == s[..n];
    }
  }

  /** r consists of exactly the elements of s that satisfy keep, each as often as in s,
      in the order of s. */
  ghost predicate Selects<T(!new)>(s: seq<T>, keep: T -> bool, r: seq<T>) {
    && SubseqOf(r, s)
    && forall x :: multiset(r)[x] == if keep(x) then multiset(s)[x] else 0
  }

  /** `s.filter(keep)`. */
  function Filter<T>(s: seq<T>, keep: T -> bool): seq<T>
    decreases |s|
  {
    if s == [] then []
    else Filter(s[..|s| - 1], keep) + if keep(s[|s| - 1]) then [s[|s| - 1]] else []
  }

  lemma {:induction false} FilterSubseq<T>(s: seq<T>, keep: T -> bool)
    ensures SubseqOf(Filter(s, keep), s)
    decreases |s|
  {
    if s != [] {
      var init, last := s[..|s| - 1], s[|s| - 1];
      var f := Filter(init, keep);
      FilterSubseq(init, keep);
      if keep(last) {
        var r := f + [last];
        assert Filter(s, keep) == r;
        assert r[..|r| - 1] == f;
        assert r[|r| - 1] == last;
      } else {
        assert Filter(s, keep) == f;
      }
    }
  }

  lemma {:induction false} FilterCounts<T(!new)>(s: seq<T>, keep: T -> bool)
    ensures forall x :: multiset(Filter(s, keep))[x] == if keep(x) then multiset(s)[x] else 0
    decreases |s|
  {
    if s != [] {
      var init, last := s[..|s| - 1], s[|s| - 1];
      FilterCounts(init, keep);
      assert s == init + [last];
      assert multiset(s) == multiset(init) + multiset{last};
      var tail := if keep(last) then [last] else [];
      assert Filter(s, keep) == Filter(init, keep) + tail;
      assert multiset(Filter(s, keep)) == multiset(Filter(init, keep)) + multiset(tail);
    }
  }

  /** A filter selects exactly the elements that satisfy its predicate, in order. */
  lemma FilterSelects<T(!new)>(s: seq<T>, keep: T -> bool)
    ensures Selects(s, keep, Filter(s, keep))
  {
    FilterSubseq(s, keep);
    FilterCounts(s, keep);
  }

  /** A subsequence takes each element at most as often as the whole. */
  lemma {:induction false} SubseqCounts<T>(r: seq<T>, s: seq<T>)
    requires SubseqOf(r, s)
    ensures multiset(r) <= multiset(s)
    decreases |s|
  {
    if r != [] {
      var s' := s[..|s| - 1];
      assert s == s' + [s[|s| - 1]];
      if SubseqOf(r, s') {
        SubseqCounts(r, s');
      } else {
        var r' := r[..|r| - 1];
        assert r == r' + [r[|r| - 1]];
        SubseqCounts(r', s');
      }
    }
  }

  /** A selection is unique: the only subsequence with the kept elements' counts is the
      filter itself. */
  lemma {:induction false} SelectsUnique<T(!new)>(s: seq<T>, keep: T -> bool, r: seq<T>)
    requires Selects(s, keep, r)
    ensures r == Filter(s, keep)
    decreases |s|
  {
    if s == [] {
      assert r == [];
    } else {
      var s', x := s[..|s| - 1], s[|s| - 1];
      assert s == s' + [x];
      assert multiset(s) == multiset(s') + multiset{x};
      if keep(x) {
        assert multiset(r)[x] == multiset(s')[x] + 1;
        if SubseqOf(r, s') {
          SubseqCounts(r, s');
          assert false;
        }
        var r' := r[..|r| - 1];
        assert r == r' + [x];
        assert multiset(r) == multiset(r') + multiset{x};
        assert Selects(s', keep, r');
        SelectsUnique(s', keep, r');
      } else {
        assert multiset(r)[x] == 0;
        if r != [] {
          var r' := r[..|r| - 1];
          assert r == r' + [r[|r| - 1]];
          assert r[|r| - 1] in multiset(r);
          assert r[|r| - 1] != x;
        }
        assert SubseqOf(r, s');
        assert Selects(s', keep, r);
        SelectsUnique(s', keep, r);
      }
    }
  }

  /** What Selects says about single elements. */
  lemma SelectsMembers<T(!new)>(s: seq<T>, keep: T -> bool, r: seq<T>)
    requires Selects(s, keep, r)
    ensures forall x :: x in r <==> x in s && keep(x)
  {
    forall x ensures x in r <==> x in s && keep(x) {
      assert x in r <==> multiset(r)[x] > 0;
      assert x in s <==> multiset(s)[x] > 0;
    }
  }

  /** Some element of a selection has a property exactly when some selected element of the
      source has it. */
  lemma SelectsSome<T(!new)>(s: seq<T>, keep: T -> bool, r: seq<T>, bad: T -> bool)
    requires Selects(s, keep, r)
    ensures (exists i :: 0 <= i < |r| && bad(r[i])) <==> (exists i :: 0 <= i < |s| && keep(s[i]) && bad(s[i]))
  {
    SelectsMembers(s, keep, r);
    if exists i :: 0 <= i < |r| && bad(r[i]) {
      var i :| 0 <= i < |r| && bad(r[i]);
      assert r[i] in r;
      var j :| 0 <= j < |s| && s[j] == r[i];
    }
    if exists i :: 0 <= i < |s| && keep(s[i]) && bad(s[i]) {
      var i :| 0 <= i < |s| && keep(s[i]) && bad(s[i]);
      assert s[i] in s;
      var j :| 0 <= j < |r| && r[j] == s[i];
    }
  }

  /** Filtering by a predicate that holds everywhere keeps everything. */
  lemma {:induction false} FilterKeepAll<T(!new)>(s: seq<T>, keep: T -> bool)
    requires forall x :: x in s ==> keep(x)
    ensures Filter(s, keep) == s
    decreases |s|
  {
    if s != [] {
      var init := s[..|s| - 1];
      assert s == init + [s[|s| - 1]];
      FilterKeepAll(init, keep);
    }
  }

  /** The conjunction of two selection predicates. */
  function Both<T(!new)>(p: T -> bool, q: T -> bool): (b: T -> bool)
    ensures forall x :: b(x) == (p(x) && q(x))
  {
    x => p(x) && q(x)
  }

  /** Filtering twice is filtering once by the conjunction. */
  lemma {:induction false} FilterFilter<T(!new)>(s: seq<T>, p: T -> bool, q: T -> bool)
    ensures Filter(Filter(s, p), q) == Filter(s, Both(p, q))
    decreases |s|
  {
    if s != [] {
      var init := s[..|s| - 1];
      var last := s[|s| - 1];
      FilterFilter(init, p, q);
      var a := Filter(init, p);
      var both := Both(p, q);
      var tail := if both(last) then [last] else [];
      assert Filter(s, both) == Filter(init, both) + tail;
      if p(last) {
        var b := a + [last];
        assert Filter(s, p) == b;
        assert b[..|b| - 1] == a;
        assert Filter(b, q) == Filter(a, q) + tail;
      } else {
        assert Filter(s, p) == a;
      }
    }
  }

  // ---------------------------------------------------------------------------
  // First-occurrence deduplication
  // ---------------------------------------------------------------------------

  predicate Distinct<T(==)>(s: seq<T>) {
    forall k, l :: 0 <= k < l < |s| ==> s[k] != s[l]
  }

  /** The position of the first occurrence of x in s. */
  function FirstIndex<T(==)>(s: seq<T>, x: T): (i: nat)
    requires x in s
    ensures i < |s| && s[i] == x
    ensures forall j :: 0 <= j < i ==> s[j] != x
  {
    if s[0] == x then 0 else 1 + FirstIndex(s[1..], x)
  }

  /** The position of the first occurrence is determined by its two properties. */
  lemma FirstIndexUnique<T>(s: seq<T>, x: T, i: nat)
    requires i < |s| && s[i] == x
    requires forall j :: 0 <= j < i ==> s[j] != x
    ensures FirstIndex(s, x) == i
  {
    var f := FirstIndex(s, x);
    assert !(f < i);
    assert !(i < f);
  }

  lemma FirstIndexInPrefix<T>(s: seq<T>, n: nat, x: T)
    requires n <= |s| && x in s[..n]
    ensures x in s && FirstIndex(s, x) == FirstIndex(s[..n], x)
  {
    var i := FirstIndex(s[..n], x);
    assert s[i] == x;
    assert forall j :: 0 <= j < i ==> s[j] == s[..n][j];
    FirstIndexUnique(s, x, i);
  }

  /** `[...new Set(s)]`: each distinct element once, in the order of its first occurrence. */
  function Dedup<T(==)>(s: seq<T>): seq<T>
    decreases |s|
  {
    if s == [] then []
    else
      var p := Dedup(s[..|s| - 1]);
      if s[|s| - 1] in p then p else p + [s[|s| - 1]]
  }

  /** Deduplication keeps every element, repeats none and keeps first-occurrence order. */
  lemma {:induction false} DedupSpec<T(!new)>(s: seq<T>)
    ensures forall x :: x in Dedup(s) <==> x in s
    ensures Distinct(Dedup(s))
    ensures forall k, l :: 0 <= k < l < |Dedup(s)| ==> FirstIndex(s, Dedup(s)[k]) < FirstIndex(s, Dedup(s)[l])
    decreases |s|
  {
    if s != [] {
      var init, last := s[..|s| - 1], s[|s| - 1];
      DedupSpec(init);
      var p := Dedup(init);
      assert s == init + [last];
      assert forall x :: x in s <==> x in init || x == last;
      forall k | 0 <= k < |p| ensures p[k] in init {
        assert p[k] in p;
      }
      FirstIndexStep(s, p);
    }
  }

  lemma FirstIndexStep<T>(s: seq<T>, p: seq<T>)
    requires s != []
    requires forall k :: 0 <= k < |p| ==> p[k] in s[..|s| - 1]
    ensures forall k :: 0 <= k < |p| ==> p[k] in s && FirstIndex(s, p[k]) == FirstIndex(s[..|s| - 1], p[k])
    ensures s[|s| - 1] !in s[..|s| - 1] ==> FirstIndex(s, s[|s| - 1]) == |s| - 1
  {
    forall k | 0 <= k < |p| ensures p[k] in s && FirstIndex(s, p[k]) == FirstIndex(s[..|s| - 1], p[k]) {
      FirstIndexInPrefix(s, |s| - 1, p[k]);
    }
    var last := s[|s| - 1];
    if last !in s[..|s| - 1] {
      assert forall j :: 0 <= j < |s| - 1 ==> s[j] == s[..|s| - 1][j];
      FirstIndexUnique(s, last, |s| - 1);
    }
  }
}
