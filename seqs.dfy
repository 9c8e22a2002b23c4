/** Sequence helpers shared by the list edits of the server and the client:
    JavaScript's `filter`, removal of every occurrence of a value, the
    order-preserving subsequence relation, and duplicate-freedom. */
module Seqs {

  /** The elements of `s` that satisfy `p`, in their original order
      (`Array.prototype.filter`). Defined on the last element so that a
      left-to-right loop can be proved against it. */
  function Filter<T(==,!new)>(p: T -> bool, s: seq<T>): (r: seq<T>)
    ensures |r| <= |s|
    ensures forall i :: 0 <= i < |r| ==> p(r[i])
    ensures forall x :: x in r <==> x in s && p(x)
  {
    if s == [] then []
    else
      var init := Filter(p, s[..|s| - 1]);
      assert s == s[..|s| - 1] + [s[|s| - 1]];
      if p(s[|s| - 1]) then init + [s[|s| - 1]] else init
  }

  /** `r` is `s` with some elements left out and the rest in their order. */
  predicate IsSubseq<T(==,!new)>(r: seq<T>, s: seq<T>)
    decreases |s|
  {
    if r == [] then true
    else if s == [] then false
    else if r[|r| - 1] == s[|s| - 1] then IsSubseq(r[..|r| - 1], s[..|s| - 1])
    else IsSubseq(r, s[..|s| - 1])
  }

  /** No value occurs twice. */
  predicate Distinct<T(==,!new)>(s: seq<T>) {
    forall i, j :: 0 <= i < j < |s| ==> s[i] != s[j]
  }

  /** The predicate "is not x". */
  function Other<T(==,!new)>(x: T): T -> bool {
    y => y != x
  }

  /** `s` without any occurrence of `x`: the source's
      `list.filter(v => v.toString() !== x.toString())`. */
  function RemoveAll<T(==,!new)>(s: seq<T>, x: T): (r: seq<T>)
    ensures x !in r
    ensures forall y :: y != x ==> (y in r <==> y in s)
    ensures multiset(r) == multiset(s)[x := 0]
    ensures IsSubseq(r, s)
  {
    var r := Filter(Other(x), s);
    FilterCounts(Other(x), s);
    assert forall y :: multiset(r)[y] == multiset(s)[x := 0][y];
    FilterIsSubseq(Other(x), s);
    r
  }

  /** A filter keeps the order of what it keeps. */
  lemma {:induction false} FilterIsSubseq<T(!new)>(p: T -> bool, s: seq<T>)
    ensures IsSubseq(Filter(p, s), s)
  {
    if s != [] {
      var init := s[..|s| - 1];
      FilterIsSubseq(p, init);
      var r := Filter(p, s);
      if !p(s[|s| - 1]) && r != [] {
        assert p(r[|r| - 1]);
      }
    }
  }

  /** A filter keeps each passing value exactly as often as `s` holds it,
      and no failing one. */
  lemma {:induction false} FilterCounts<T(!new)>(p: T -> bool, s: seq<T>)
    ensures forall x :: multiset(Filter(p, s))[x] == if p(x) then multiset(s)[x] else 0
  {
    if s != [] {
      var init := s[..|s| - 1];
      FilterCounts(p, init);
      assert s == init + [s[|s| - 1]];
    }
  }

  /** Two complementary filters split `s` exactly: what one keeps the other
      drops, and together they hold every element as often as `s` does. */
  lemma FilterSplit<T(!new)>(p: T -> bool, q: T -> bool, s: seq<T>)
    requires forall x :: q(x) == !p(x)
    ensures multiset(Filter(p, s)) + multiset(Filter(q, s)) == multiset(s)
    ensures |Filter(p, s)| + |Filter(q, s)| == |s|
  {
    FilterCounts(p, s);
    FilterCounts(q, s);
    var both := multiset(Filter(p, s)) + multiset(Filter(q, s));
    assert forall x :: both[x] == multiset(s)[x];
    assert both == multiset(s);
    assert |both| == |multiset(s)|;
  }

  /** Filtering a duplicate-free sequence gives a duplicate-free sequence. */
  lemma {:induction false} FilterDistinct<T(!new)>(p: T -> bool, s: seq<T>)
    requires Distinct(s)
    ensures Distinct(Filter(p, s))
  {
    if s != [] {
      var init := s[..|s| - 1];
      assert Distinct(init);
      FilterDistinct(p, init);
      assert s[|s| - 1] !in init;
    }
  }

  /** Removing a value that is absent changes nothing, and removal keeps a
      duplicate-free list duplicate-free. */
  lemma RemoveAllSpec<T(!new)>(s: seq<T>, x: T)
    ensures x !in s ==> RemoveAll(s, x) == s
    ensures Distinct(s) ==> Distinct(RemoveAll(s, x))
  {
    if Distinct(s) {
      FilterDistinct(Other(x), s);
    }
    if x !in s {
      FilterKeepsAll(Other(x), s);
    }
  }

  /** A filter that every element passes changes nothing. */
  lemma {:induction false} FilterKeepsAll<T(!new)>(p: T -> bool, s: seq<T>)
    requires forall i :: 0 <= i < |s| ==> p(s[i])
    ensures Filter(p, s) == s
  {
    if s != [] {
      var init := s[..|s| - 1];
      FilterKeepsAll(p, init);
      assert s == init + [s[|s| - 1]];
    }
  }

  /** Filtering twice is filtering once by the conjunction. */
  lemma {:induction false} FilterTwice<T(!new)>(p: T -> bool, q: T -> bool, pq: T -> bool, s: seq<T>)
    requires forall x :: pq(x) == (p(x) && q(x))
    ensures Filter(q, Filter(p, s)) == Filter(pq, s)
  {
    if s != [] {
      var init := s[..|s| - 1];
      FilterTwice(p, q, pq, init);
      var last := s[|s| - 1];
      var fp := Filter(p, init);
      if p(last) {
        assert Filter(p, s) == fp + [last];
        assert (fp + [last])[..|fp + [last]| - 1] == fp;
      }
    }
  }

  /** Filters by pointwise-equal predicates keep the same elements. */
  lemma {:induction false} FilterCongruent<T(!new)>(p: T -> bool, q: T -> bool, s: seq<T>)
    requires forall x :: p(x) == q(x)
    ensures Filter(p, s) == Filter(q, s)
  {
    if s != [] {
      FilterCongruent(p, q, s[..|s| - 1]);
    }
  }

  /** Filtering the prefix one element longer adds that element exactly
      when it passes: the step of a left-to-right filtering loop. */
  lemma FilterStep<T(!new)>(p: T -> bool, s: seq<T>, i: nat)
    requires i < |s|
    ensures Filter(p, s[..i + 1]) == if p(s[i]) then Filter(p, s[..i]) + [s[i]] else Filter(p, s[..i])
  {
    assert s[..i + 1][..i] == s[..i];
  }

  /** Every sequence is a subsequence of itself. */
  lemma {:induction false} SubseqRefl<T(!new)>(s: seq<T>)
    ensures IsSubseq(s, s)
  {
    if s != [] {
      SubseqRefl(s[..|s| - 1]);
    }
  }
}
