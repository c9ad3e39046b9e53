/** Sequence filtering with the meaning of JavaScript's Array.prototype.filter:
    a fresh list of the elements that satisfy a predicate, in their original order. */
module Seqs {

  /** The elements of s satisfying p, in the order they occur in s. */
  function Filter<T>(p: T -> bool, s: seq<T>): (r: seq<T>)
    ensures |r| <= |s|
    ensures forall k :: 0 <= k < |r| ==> p(r[k])
  {
    if s == [] then []
    else if p(s[0]) then [s[0]] + Filter(p, s[1..])
    else Filter(p, s[1..])
  }

  /** a can be obtained from b by deleting elements (order is preserved). */
  predicate IsSubsequence<T(==)>(a: seq<T>, b: seq<T>)
    decreases |b|
  {
    a == [] ||
    (b != [] &&
     ((a[0] == b[0] && IsSubsequence(a[1..], b[1..])) || IsSubsequence(a, b[1..])))
  }

  /** Filtering only deletes: the survivors keep their relative order. */
  lemma {:induction false} FilterIsSubsequence<T>(p: T -> bool, s: seq<T>)
    ensures IsSubsequence(Filter(p, s), s)
  {
    if s != [] {
      FilterIsSubsequence(p, s[1..]);
      var r := Filter(p, s);
      if p(s[0]) {
        assert r[0] == s[0] && r[1..] == Filter(p, s[1..]);
      }
    }
  }

  /** Each value occurs in the result as often as in s when it satisfies p, never otherwise. */
  lemma {:induction false} FilterCount<T>(p: T -> bool, s: seq<T>, x: T)
    ensures multiset(Filter(p, s))[x] == if p(x) then multiset(s)[x] else 0
  {
    if s != [] {
      FilterCount(p, s[1..], x);
      assert s == [s[0]] + s[1..];
    }
  }

  /** FilterCount for every value at once, together with the membership reading of it. */
  lemma FilterCounts<T>(p: T -> bool, s: seq<T>)
    ensures forall x :: multiset(Filter(p, s))[x] == if p(x) then multiset(s)[x] else 0
    ensures forall x :: x in Filter(p, s) <==> x in s && p(x)
  {
    forall x
      ensures multiset(Filter(p, s))[x] == if p(x) then multiset(s)[x] else 0
      ensures x in Filter(p, s) <==> x in s && p(x)
    {
      FilterCount(p, s, x);
      assert x in Filter(p, s) <==> x in multiset(Filter(p, s));
      assert x in s <==> x in multiset(s);
    }
  }

  /** A subsequence holds no value more often than the sequence it was taken from. */
  lemma {:induction false} SubsequenceCount<T>(a: seq<T>, b: seq<T>, x: T)
    requires IsSubsequence(a, b)
    ensures multiset(a)[x] <= multiset(b)[x]
    decreases |b|
  {
    if a != [] {
      assert b == [b[0]] + b[1..];
      if a[0] == b[0] && IsSubsequence(a[1..], b[1..]) {
        SubsequenceCount(a[1..], b[1..], x);
        assert a == [a[0]] + a[1..];
      } else {
        SubsequenceCount(a, b[1..], x);
      }
    }
  }

  /** Filter is the only order-preserving selection from s that keeps exactly the
      occurrences satisfying p: any such r equals Filter(p, s). */
  lemma {:induction false} FilterUnique<T>(p: T -> bool, s: seq<T>, r: seq<T>)
    requires IsSubsequence(r, s)
    requires forall x :: multiset(r)[x] == if p(x) then multiset(s)[x] else 0
    ensures r == Filter(p, s)
    decreases |s|
  {
    if s != [] {
      var a, t := s[0], s[1..];
      assert s == [a] + t;
      if p(a) {
        assert multiset(r)[a] == multiset(s)[a] > 0;
        if !(r[0] == a && IsSubsequence(r[1..], t)) {
          SubsequenceCount(r, t, a);
          assert false;
        }
        assert r == [a] + r[1..];
        forall x
          ensures multiset(r[1..])[x] == if p(x) then multiset(t)[x] else 0
        {
        }
        FilterUnique(p, t, r[1..]);
      } else {
        if r != [] {
          assert r[0] in multiset(r);
        }
        FilterUnique(p, t, r);
      }
    }
  }

  /** Filtering by a stronger predicate after a weaker one is the same as filtering by
      the stronger one alone. */
  lemma {:induction false} FilterNarrow<T>(p: T -> bool, q: T -> bool, s: seq<T>)
    requires forall x :: q(x) ==> p(x)
    ensures Filter(q, Filter(p, s)) == Filter(q, s)
  {
    if s != [] {
      FilterNarrow(p, q, s[1..]);
      if p(s[0]) {
        assert ([s[0]] + Filter(p, s[1..]))[1..] == Filter(p, s[1..]);
      }
    }
  }
}
