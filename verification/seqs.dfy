/**
 Sequence helpers shared by the store and the client views: `Array.prototype.filter`,
 `reduce((sum, x) => sum + f(x), 0)`, `slice(0, n)`, and the order predicates the
 sorted views are stated with.
 */
module Seqs {

  /** `s.reduce((sum, x) => sum + f(x), 0)`, with exact integer arithmetic. */
  function SumBy<T>(s: seq<T>, f: T -> int): int
  {
    if |s| == 0 then 0 else f(s[0]) + SumBy(s[1..], f)
  }

  lemma {:induction false} SumByAppend<T>(a: seq<T>, b: seq<T>, f: T -> int)
    ensures SumBy(a + b, f) == SumBy(a, f) + SumBy(b, f)
  {
    if |a| == 0 {
      assert a + b == b;
    } else {
      assert (a + b)[1..] == a[1..] + b;
      SumByAppend(a[1..], b, f);
    }
  }

  lemma AppendAssoc<T>(a: seq<T>, b: seq<T>, c: seq<T>)
    ensures a + b + c == a + (b + c)
  {
  }

  /** `s.filter(p)`: the elements satisfying `p`, in their original order. */
  function Filter<T>(s: seq<T>, p: T -> bool): (r: seq<T>)
    ensures |r| <= |s|
    ensures forall i :: 0 <= i < |r| ==> r[i] in s && p(r[i])
    ensures forall i :: 0 <= i < |s| && p(s[i]) ==> s[i] in r
  {
    if |s| == 0 then []
    else
      assert s == [s[0]] + s[1..];
      (if p(s[0]) then [s[0]] else []) + Filter(s[1..], p)
  }

  /** An element is in the filtered sequence exactly when it is in the input and passes. */
  lemma FilterMembership<T>(s: seq<T>, p: T -> bool)
    ensures forall x :: x in Filter(s, p) <==> x in s && p(x)
  {
    forall x | x in s && p(x)
      ensures x in Filter(s, p)
    {
      var i :| 0 <= i < |s| && s[i] == x;
    }
  }

  lemma {:induction false} FilterAppend<T>(a: seq<T>, b: seq<T>, p: T -> bool)
    ensures Filter(a + b, p) == Filter(a, p) + Filter(b, p)
  {
    if |a| == 0 {
      assert a + b == b;
    } else {
      assert (a + b)[1..] == a[1..] + b;
      FilterAppend(a[1..], b, p);
    }
  }

  /** Filtering with a predicate every element satisfies gives the input back. */
  lemma {:induction false} FilterKeepsAll<T>(s: seq<T>, p: T -> bool)
    requires forall i :: 0 <= i < |s| ==> p(s[i])
    ensures Filter(s, p) == s
  {
    if |s| > 0 {
      FilterKeepsAll(s[1..], p);
    }
  }

  /** Filtering with a predicate no element satisfies gives the empty sequence. */
  lemma {:induction false} FilterDropsAll<T>(s: seq<T>, p: T -> bool)
    requires forall i :: 0 <= i < |s| ==> !p(s[i])
    ensures Filter(s, p) == []
  {
    if |s| > 0 {
      FilterDropsAll(s[1..], p);
    }
  }

  /** Filtering preserves order and never duplicates: the result is a sub-multiset. */
  lemma {:induction false} FilterSubMultiset<T>(s: seq<T>, p: T -> bool)
    ensures multiset(Filter(s, p)) <= multiset(s)
  {
    if |s| > 0 {
      FilterSubMultiset(s[1..], p);
      assert s == [s[0]] + s[1..];
      assert multiset(s) == multiset{s[0]} + multiset(s[1..]);
      assert Filter(s, p) == (if p(s[0]) then [s[0]] else []) + Filter(s[1..], p);
    }
  }

  /** Each element passing `p` keeps its multiplicity; every other element is gone. */
  lemma {:induction false} FilterMultiplicity<T>(s: seq<T>, p: T -> bool, x: T)
    ensures multiset(Filter(s, p))[x] == if p(x) then multiset(s)[x] else 0
  {
    if |s| > 0 {
      FilterMultiplicity(s[1..], p, x);
      assert s == [s[0]] + s[1..];
      assert multiset(s) == multiset{s[0]} + multiset(s[1..]);
      var head := if p(s[0]) then [s[0]] else [];
      assert Filter(s, p) == head + Filter(s[1..], p);
      assert multiset(Filter(s, p)) == multiset(head) + multiset(Filter(s[1..], p));
    }
  }

  /** Filtering with two predicates in turn is filtering with their conjunction. */
  lemma {:induction false} FilterFilter<T>(s: seq<T>, p: T -> bool, q: T -> bool)
    ensures Filter(Filter(s, p), q) == Filter(s, x => p(x) && q(x))
  {
    if |s| > 0 {
      var pq := x => p(x) && q(x);
      FilterFilter(s[1..], p, q);
      assert pq(s[0]) == (p(s[0]) && q(s[0]));
      if p(s[0]) {
        var fp := Filter(s, p);
        assert fp == [s[0]] + Filter(s[1..], p);
        assert fp[0] == s[0] && fp[1..] == Filter(s[1..], p);
        assert Filter(fp, q) == (if q(s[0]) then [s[0]] else []) + Filter(fp[1..], q);
      } else {
        assert Filter(s, p) == Filter(s[1..], p);
      }
    }
  }

  /** Two predicates that agree on every element select the same elements. */
  lemma {:induction false} FilterCongruent<T>(s: seq<T>, p: T -> bool, q: T -> bool)
    requires forall i :: 0 <= i < |s| ==> p(s[i]) == q(s[i])
    ensures Filter(s, p) == Filter(s, q)
  {
    if |s| > 0 {
      FilterCongruent(s[1..], p, q);
    }
  }

  /**
   The amount selected by two disjoint predicates adds up to the amount selected
   by their disjunction `pq`: an element is never counted twice.
   */
  lemma {:induction false} FilterDisjointSum<T>(s: seq<T>, p: T -> bool, q: T -> bool, pq: T -> bool, f: T -> int)
    requires forall i :: 0 <= i < |s| ==> !(p(s[i]) && q(s[i]))
    requires forall i :: 0 <= i < |s| ==> pq(s[i]) == (p(s[i]) || q(s[i]))
    ensures SumBy(Filter(s, p), f) + SumBy(Filter(s, q), f) == SumBy(Filter(s, pq), f)
  {
    if |s| > 0 {
      FilterDisjointSum(s[1..], p, q, pq, f);
      assert Filter(s, pq) == (if pq(s[0]) then [s[0]] else []) + Filter(s[1..], pq);
      assert Filter(s, p) == (if p(s[0]) then [s[0]] else []) + Filter(s[1..], p);
      assert Filter(s, q) == (if q(s[0]) then [s[0]] else []) + Filter(s[1..], q);
      SumByAppend(if pq(s[0]) then [s[0]] else [], Filter(s[1..], pq), f);
      SumByAppend(if p(s[0]) then [s[0]] else [], Filter(s[1..], p), f);
      SumByAppend(if q(s[0]) then [s[0]] else [], Filter(s[1..], q), f);
    }
  }

  /** `a` can be obtained from `b` by deleting elements (order preserved). */
  predicate IsSubsequence<T(==)>(a: seq<T>, b: seq<T>)
    decreases |b|
  {
    |a| == 0 ||
    (|b| > 0 && ((a[0] == b[0] && IsSubsequence(a[1..], b[1..])) || IsSubsequence(a, b[1..])))
  }

  lemma {:induction false} FilterIsSubsequence<T>(s: seq<T>, p: T -> bool)
    ensures IsSubsequence(Filter(s, p), s)
  {
    if |s| > 0 {
      FilterIsSubsequence(s[1..], p);
      var r := Filter(s, p);
      if p(s[0]) {
        assert r[0] == s[0] && r[1..] == Filter(s[1..], p);
      } else {
        assert r == Filter(s[1..], p);
      }
    }
  }

  /** `s.slice(0, n)`: the first `n` elements, or all of them when there are fewer. */
  function Take<T>(s: seq<T>, n: nat): (r: seq<T>)
    ensures |r| <= n && |r| <= |s|
    ensures |s| <= n ==> r == s
    ensures forall i :: 0 <= i < |r| ==> r[i] == s[i]
  {
    if |s| <= n then s else s[..n]
  }

  /** Keys never increase along `s`. */
  ghost predicate NonIncreasing<T>(s: seq<T>, key: T -> int)
  {
    forall i, j :: 0 <= i < j < |s| ==> key(s[i]) >= key(s[j])
  }

  /** Keys never decrease along `s`. */
  ghost predicate NonDecreasing<T>(s: seq<T>, key: T -> int)
  {
    forall i, j :: 0 <= i < j < |s| ==> key(s[i]) <= key(s[j])
  }

  /** Filtering a sequence ordered by key keeps it ordered by key. */
  lemma {:induction false} FilterNonIncreasing<T>(s: seq<T>, p: T -> bool, key: T -> int)
    requires NonIncreasing(s, key)
    ensures NonIncreasing(Filter(s, p), key)
  {
    if |s| > 0 {
      var tail := s[1..];
      assert NonIncreasing(tail, key);
      FilterNonIncreasing(tail, p, key);
      var rest := Filter(tail, p);
      if p(s[0]) {
        forall k | 0 <= k < |rest|
          ensures key(rest[k]) <= key(s[0])
        {
          var m :| 0 <= m < |tail| && tail[m] == rest[k];
          assert s[m + 1] == tail[m];
        }
        ConsNonIncreasing(s[0], rest, key);
        assert Filter(s, p) == [s[0]] + rest;
      } else {
        assert Filter(s, p) == rest;
      }
    }
  }

  /** Putting a key no smaller than any in `rest` in front keeps the keys non-increasing. */
  lemma ConsNonIncreasing<T>(x: T, rest: seq<T>, key: T -> int)
    requires NonIncreasing(rest, key)
    requires forall k :: 0 <= k < |rest| ==> key(rest[k]) <= key(x)
    ensures NonIncreasing([x] + rest, key)
  {
    var r := [x] + rest;
    forall i, j | 0 <= i < j < |r|
      ensures key(r[i]) >= key(r[j])
    {
      assert r[j] == rest[j - 1];
      if i > 0 {
        assert r[i] == rest[i - 1];
      }
    }
  }

  /** No two elements of `s` share a key. */
  ghost predicate DistinctBy<T>(s: seq<T>, key: T -> int)
  {
    forall i, j :: 0 <= i < j < |s| ==> key(s[i]) != key(s[j])
  }

  /** `s.slice().reverse()`: the same elements, last first. */
  function Reverse<T>(s: seq<T>): (r: seq<T>)
    ensures |r| == |s|
    ensures forall i :: 0 <= i < |s| ==> r[i] == s[|s| - 1 - i]
  {
    if |s| == 0 then [] else Reverse(s[1..]) + [s[0]]
  }

  /** Reversing does not change the sum of any per-element quantity. */
  lemma {:induction false} SumByReverse<T>(s: seq<T>, f: T -> int)
    ensures SumBy(Reverse(s), f) == SumBy(s, f)
  {
    if |s| > 0 {
      SumByReverse(s[1..], f);
      SumByAppend(Reverse(s[1..]), [s[0]], f);
    }
  }

  /**
   Cutting a non-increasing sequence after `n` elements splits it into a head and a
   tail in which nothing has a larger key than anything in the head.
   */
  lemma PrefixDominates<T>(s: seq<T>, n: nat, key: T -> int)
    requires NonIncreasing(s, key) && n <= |s|
    ensures multiset(s[..n]) + multiset(s[n..]) == multiset(s)
    ensures forall y, i :: y in s[n..] && 0 <= i < n ==> key(y) <= key(s[..n][i])
  {
    assert s == s[..n] + s[n..];
    forall y, i | y in s[n..] && 0 <= i < n
      ensures key(y) <= key(s[..n][i])
    {
      var j :| 0 <= j < |s[n..]| && s[n..][j] == y;
      assert s[n + j] == y && s[..n][i] == s[i];
    }
  }
}
