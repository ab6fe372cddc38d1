/**
 The stable sort the source gets from `Array.prototype.sort` with a numeric
 comparator. A comparator `(a, b) => key(b) - key(a)` orders by `key` descending and,
 the sort being stable, keeps equal-key elements in their input order: that is
 exactly insertion sort that puts each element before the first later one whose key
 is not greater. An ascending comparator `(a, b) => key(a) - key(b)` is the same sort
 on the negated key, and a comparator that always answers 0 is the same sort on a
 constant key.
 */
module Sorting {
  import opened Seqs

  /** Inserts `x` just before the first element of `s` whose key is at most `key(x)`. */
  function InsertDesc<T>(x: T, s: seq<T>, key: T -> int): (r: seq<T>)
    ensures |r| == |s| + 1
    ensures multiset(r) == multiset(s) + multiset{x}
  {
    if |s| == 0 then [x]
    else if key(s[0]) <= key(x) then [x] + s
    else
      assert s == [s[0]] + s[1..];
      [s[0]] + InsertDesc(x, s[1..], key)
  }

  /** Stable sort by `key`, largest key first. */
  function SortDesc<T>(s: seq<T>, key: T -> int): (r: seq<T>)
    ensures |r| == |s|
    ensures multiset(r) == multiset(s)
  {
    if |s| == 0 then []
    else
      assert s == [s[0]] + s[1..];
      InsertDesc(s[0], SortDesc(s[1..], key), key)
  }

  /** Stable sort by `key`, smallest key first. */
  function SortAsc<T>(s: seq<T>, key: T -> int): (r: seq<T>)
  {
    SortDesc(s, x => -key(x))
  }

  lemma {:induction false} InsertDescNonIncreasing<T>(x: T, s: seq<T>, key: T -> int)
    requires NonIncreasing(s, key)
    ensures NonIncreasing(InsertDesc(x, s, key), key)
  {
    if |s| > 0 && key(s[0]) > key(x) {
      var rest := InsertDesc(x, s[1..], key);
      InsertDescNonIncreasing(x, s[1..], key);
      InsertDescMembers(x, s[1..], key);
      var r := InsertDesc(x, s, key);
      assert r == [s[0]] + rest;
      forall i, j | 0 <= i < j < |r|
        ensures key(r[i]) >= key(r[j])
      {
        if i == 0 {
          assert r[j] == rest[j - 1];
          assert rest[j - 1] == x || rest[j - 1] in s[1..];
        }
      }
    }
  }

  /** Every element of an insertion comes from the inserted element or the sequence. */
  lemma {:induction false} InsertDescMembers<T>(x: T, s: seq<T>, key: T -> int)
    ensures forall i :: 0 <= i < |InsertDesc(x, s, key)| ==>
      InsertDesc(x, s, key)[i] == x || InsertDesc(x, s, key)[i] in s
  {
    if |s| > 0 && key(s[0]) > key(x) {
      InsertDescMembers(x, s[1..], key);
      var rest := InsertDesc(x, s[1..], key);
      assert InsertDesc(x, s, key) == [s[0]] + rest;
      forall i | 0 <= i < |rest|
        ensures rest[i] == x || rest[i] in s
      {
        assert rest[i] == x || rest[i] in s[1..];
      }
    }
  }

  /** The sort's output is ordered by key, largest first. */
  lemma {:induction false} SortDescNonIncreasing<T>(s: seq<T>, key: T -> int)
    ensures NonIncreasing(SortDesc(s, key), key)
  {
    if |s| > 0 {
      SortDescNonIncreasing(s[1..], key);
      InsertDescNonIncreasing(s[0], SortDesc(s[1..], key), key);
    }
  }

  /** The ascending sort's output is ordered by key, smallest first. */
  lemma SortAscNonDecreasing<T>(s: seq<T>, key: T -> int)
    ensures NonDecreasing(SortAsc(s, key), key)
  {
    var neg := x => -key(x);
    var r := SortDesc(s, neg);
    SortDescNonIncreasing(s, neg);
    forall i, j | 0 <= i < j < |r|
      ensures key(r[i]) <= key(r[j])
    {
      assert neg(r[i]) >= neg(r[j]);
    }
  }

  lemma {:induction false} InsertDescSumBy<T>(x: T, s: seq<T>, key: T -> int, f: T -> int)
    ensures SumBy(InsertDesc(x, s, key), f) == f(x) + SumBy(s, f)
  {
    if |s| > 0 && key(s[0]) > key(x) {
      InsertDescSumBy(x, s[1..], key, f);
      assert InsertDesc(x, s, key)[1..] == InsertDesc(x, s[1..], key);
    } else if |s| > 0 {
      assert ([x] + s)[1..] == s;
    }
  }

  /** Sorting does not change the sum of any per-element quantity. */
  lemma {:induction false} SortDescSumBy<T>(s: seq<T>, key: T -> int, f: T -> int)
    ensures SumBy(SortDesc(s, key), f) == SumBy(s, f)
  {
    if |s| > 0 {
      SortDescSumBy(s[1..], key, f);
      InsertDescSumBy(s[0], SortDesc(s[1..], key), key, f);
    }
  }

  /** When every key is equal nothing moves: the sort returns its input unchanged. */
  lemma {:induction false} SortDescConstantKey<T>(s: seq<T>, key: T -> int, c: int)
    requires forall i :: 0 <= i < |s| ==> key(s[i]) == c
    ensures SortDesc(s, key) == s
  {
    if |s| > 0 {
      SortDescConstantKey(s[1..], key, c);
      if |s| > 1 {
        assert key(s[1..][0]) == c;
      }
    }
  }

  lemma {:induction false} InsertDescDistinctBy<T>(x: T, s: seq<T>, key: T -> int, id: T -> int)
    requires DistinctBy(s, id)
    requires forall i :: 0 <= i < |s| ==> id(s[i]) != id(x)
    ensures DistinctBy(InsertDesc(x, s, key), id)
  {
    if |s| > 0 && key(s[0]) > key(x) {
      InsertDescDistinctBy(x, s[1..], key, id);
      InsertDescMembers(x, s[1..], key);
      var rest := InsertDesc(x, s[1..], key);
      var r := InsertDesc(x, s, key);
      assert r == [s[0]] + rest;
      forall i, j | 0 <= i < j < |r|
        ensures id(r[i]) != id(r[j])
      {
        if i == 0 {
          assert r[j] == rest[j - 1];
          assert rest[j - 1] == x || rest[j - 1] in s[1..];
        }
      }
    } else if |s| > 0 {
      var r := [x] + s;
      forall i, j | 0 <= i < j < |r|
        ensures id(r[i]) != id(r[j])
      {
        if i == 0 {
          assert r[j] == s[j - 1];
        }
      }
    }
  }

  /** Sorting keeps elements whose identities were distinct distinct. */
  lemma {:induction false} SortDescDistinctBy<T>(s: seq<T>, key: T -> int, id: T -> int)
    requires DistinctBy(s, id)
    ensures DistinctBy(SortDesc(s, key), id)
  {
    if |s| > 0 {
      var rest := SortDesc(s[1..], key);
      SortDescDistinctBy(s[1..], key, id);
      SortDescMembers(s[1..], key);
      forall i | 0 <= i < |rest|
        ensures id(rest[i]) != id(s[0])
      {
        var k :| 0 <= k < |s[1..]| && s[1..][k] == rest[i];
        assert s[k + 1] == rest[i];
      }
      InsertDescDistinctBy(s[0], rest, key, id);
    }
  }

  /** Two sequences that are permutations of each other have the same members. */
  lemma SameMembers<T>(a: seq<T>, b: seq<T>)
    requires multiset(a) == multiset(b)
    ensures forall x :: x in a <==> x in b
  {
    forall x
      ensures x in a <==> x in b
    {
      assert x in a <==> x in multiset(a);
      assert x in b <==> x in multiset(b);
    }
  }

  /** Every element of the sorted output is an element of the input. */
  lemma {:induction false} SortDescMembers<T>(s: seq<T>, key: T -> int)
    ensures forall i :: 0 <= i < |SortDesc(s, key)| ==> SortDesc(s, key)[i] in s
  {
    if |s| > 0 {
      SortDescMembers(s[1..], key);
      InsertDescMembers(s[0], SortDesc(s[1..], key), key);
    }
  }
}
