/**
 * Array.prototype.filter over sequences, and what it preserves.
 */
module Seqs {

  /** `r` is obtained from `s` by deleting elements, keeping the order of the rest. */
  ghost predicate IsSubsequence<T>(r: seq<T>, s: seq<T>)
    decreases |s|
  {
    if r == [] then true
    else if s == [] then false
    else (r[|r| - 1] == s[|s| - 1] && IsSubsequence(r[..|r| - 1], s[..|s| - 1]))
         || IsSubsequence(r, s[..|s| - 1])
  }

  /** The elements of `s` that satisfy `p`, in their order in `s`. */
  function Filter<T(==, !new)>(s: seq<T>, p: T -> bool): (r: seq<T>)
    ensures forall x :: x in r <==> x in s && p(x)
    ensures forall x :: multiset(r)[x] == if p(x) then multiset(s)[x] else 0
    ensures IsSubsequence(r, s)
    decreases |s|
  {
    if s == [] then []
    else
      var init, last := s[..|s| - 1], s[|s| - 1];
      assert s == init + [last];
      var r := Filter(init, p);
      if p(last) then
        var r' := r + [last];
        assert r'[..|r'| - 1] == r;
        r'
      else
        r
  }

  /** Filtering by `p` and by its negation splits `s` into two parts that together hold `s`. */
  lemma FilterSplits<T(!new)>(s: seq<T>, p: T -> bool, q: T -> bool)
    requires forall x :: q(x) == !p(x)
    ensures multiset(Filter(s, p)) + multiset(Filter(s, q)) == multiset(s)
  {
    var a, b := multiset(Filter(s, p)), multiset(Filter(s, q));
    forall x
      ensures (a + b)[x] == multiset(s)[x]
    {
      assert q(x) == !p(x);
    }
  }

  /** In a sequence without repeated elements every element occurs once. */
  lemma {:induction false} DistinctOccursOnce<T>(s: seq<T>)
    requires forall i, j :: 0 <= i < j < |s| ==> s[i] != s[j]
    ensures forall x :: multiset(s)[x] <= 1
    decreases |s|
  {
    if s != [] {
      var init, last := s[..|s| - 1], s[|s| - 1];
      DistinctOccursOnce(init);
      assert s == init + [last];
      forall i | 0 <= i < |init| ensures init[i] != last {
        assert s[i] != s[|s| - 1];
      }
    }
  }

  /** Two filters applied one after the other are one filter by the conjunction. */
  lemma {:induction false} FilterFilter<T(!new)>(s: seq<T>, p: T -> bool, q: T -> bool, pq: T -> bool)
    requires forall x :: pq(x) == (p(x) && q(x))
    ensures Filter(Filter(s, p), q) == Filter(s, pq)
    decreases |s|
  {
    if s != [] {
      var init, last := s[..|s| - 1], s[|s| - 1];
      FilterFilter(init, p, q, pq);
      assert pq(last) == (p(last) && q(last));
      if p(last) {
        var fp := Filter(init, p) + [last];
        assert fp[..|fp| - 1] == Filter(init, p);
      }
    }
  }

  /** Filters whose predicates agree on the elements of `s` give the same result. */
  lemma {:induction false} FilterAgreeing<T(!new)>(s: seq<T>, p: T -> bool, q: T -> bool)
    requires forall x :: x in s ==> p(x) == q(x)
    ensures Filter(s, p) == Filter(s, q)
    decreases |s|
  {
    if s != [] {
      var init := s[..|s| - 1];
      forall x | x in init ensures x in s {
        var i :| 0 <= i < |init| && init[i] == x;
        assert s[i] == x;
      }
      FilterAgreeing(init, p, q);
    }
  }

  /** A filter that every element passes returns its input unchanged. */
  lemma {:induction false} FilterKeepsAll<T(!new)>(s: seq<T>, p: T -> bool)
    requires forall x :: x in s ==> p(x)
    ensures Filter(s, p) == s
    decreases |s|
  {
    if s != [] {
      var init, last := s[..|s| - 1], s[|s| - 1];
      assert s == init + [last];
      forall x | x in init ensures p(x) {
        assert x in s;
      }
      FilterKeepsAll(init, p);
      assert p(last);
    }
  }
}
