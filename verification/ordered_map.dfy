/**
 JavaScript's `Map<number, V>`: a keyed collection that remembers insertion order.
 `set` on a present key replaces the value where it stands; `set` on a new key
 appends; `delete` removes the entry and reports whether there was one; `values()`
 iterates in insertion order. It is modelled as a list of entries, first entry first.
 */
module OrderedMap {
  import opened Outcomes
  import opened Seqs

  datatype Entry<V> = Entry(key: int, value: V)

  type OMap<V> = seq<Entry<V>>

  /** The key set of `m`. */
  ghost function Keys<V>(m: OMap<V>): set<int>
  {
    set i | 0 <= i < |m| :: m[i].key
  }

  predicate HasKey<V>(m: OMap<V>, k: int)
  {
    exists i :: 0 <= i < |m| && m[i].key == k
  }

  /** Keys strictly increase along the insertion order (hence no key occurs twice). */
  ghost predicate StrictlyAscending<V>(m: OMap<V>)
  {
    forall i, j :: 0 <= i < j < |m| ==> m[i].key < m[j].key
  }

  lemma AscendingDistinct<V>(m: OMap<V>)
    requires StrictlyAscending(m)
    ensures DistinctKeys(m)
  {
  }

  /** Appending a key above every present key keeps the keys ascending. */
  lemma AppendAscending<V>(m: OMap<V>, k: int, v: V)
    requires StrictlyAscending(m)
    requires forall i :: 0 <= i < |m| ==> m[i].key < k
    ensures StrictlyAscending(m + [Entry(k, v)])
  {
  }

  /** No key occurs twice. */
  ghost predicate DistinctKeys<V>(m: OMap<V>)
  {
    forall i, j :: 0 <= i < j < |m| ==> m[i].key != m[j].key
  }

  /** `m.get(k)`: the value stored under `k`, if any. */
  function Get<V>(m: OMap<V>, k: int): (r: Option<V>)
    ensures r.Some? <==> HasKey(m, k)
  {
    if |m| == 0 then None
    else if m[0].key == k then Some(m[0].value)
    else
      assert forall i :: 0 <= i < |m[1..]| ==> m[1..][i] == m[i + 1];
      assert HasKey(m, k) ==> HasKey(m[1..], k);
      Get(m[1..], k)
  }

  /** What `get` finds is stored in some entry under the key asked for. */
  lemma {:induction false} GetFound<V>(m: OMap<V>, k: int)
    ensures Get(m, k).Some? ==> exists i :: 0 <= i < |m| && m[i] == Entry(k, Get(m, k).value)
  {
    if |m| > 0 && m[0].key != k {
      GetFound(m[1..], k);
      if Get(m, k).Some? {
        var i :| 0 <= i < |m[1..]| && m[1..][i] == Entry(k, Get(m, k).value);
        assert m[i + 1] == m[1..][i];
      }
    }
  }

  /** With distinct keys, the entry at position `i` is what `Get` finds for its key. */
  lemma {:induction false} GetAt<V>(m: OMap<V>, i: int)
    requires DistinctKeys(m)
    requires 0 <= i < |m|
    ensures Get(m, m[i].key) == Some(m[i].value)
  {
    if i > 0 {
      assert m[0].key != m[i].key;
      GetAt(m[1..], i - 1);
    }
  }

  /** `m.set(k, v)`: replace the value of `k` in place, or append a new entry. */
  function Set<V>(m: OMap<V>, k: int, v: V): (r: OMap<V>)
    ensures forall k' :: k' != k ==> Get(r, k') == Get(m, k')
    ensures HasKey(m, k) ==> |r| == |m| && forall i :: 0 <= i < |m| ==> r[i].key == m[i].key
    ensures !HasKey(m, k) ==> r == m + [Entry(k, v)]
  {
    if |m| == 0 then [Entry(k, v)]
    else if m[0].key == k then [Entry(k, v)] + m[1..]
    else
      assert HasKey(m, k) ==> HasKey(m[1..], k);
      assert !HasKey(m, k) ==> !HasKey(m[1..], k);
      assert m == [m[0]] + m[1..];
      [m[0]] + Set(m[1..], k, v)
  }

  /** After `m.set(k, v)`, `m.get(k)` answers `v`. */
  lemma {:induction false} GetSet<V>(m: OMap<V>, k: int, v: V)
    ensures Get(Set(m, k, v), k) == Some(v)
  {
    if |m| > 0 && m[0].key != k {
      GetSet(m[1..], k, v);
      var r := Set(m, k, v);
      assert r[0] == m[0] && r[1..] == Set(m[1..], k, v);
    }
  }

  /**
   `m.set(k, v)` changes the sum of any per-value quantity by the new value's share,
   less the replaced value's share when `k` was present.
   */
  lemma {:induction false} SetSumBy<V>(m: OMap<V>, k: int, v: V, f: V -> int)
    ensures SumBy(Values(Set(m, k, v)), f) ==
      SumBy(Values(m), f) + f(v) - (if HasKey(m, k) then f(Get(m, k).value) else 0)
  {
    var r := Set(m, k, v);
    if |m| == 0 {
      assert Values(r) == [v];
    } else if m[0].key == k {
      SumByValuesCons(r, f);
      SumByValuesCons(m, f);
      assert r[0].value == v && r[1..] == m[1..];
      assert HasKey(m, k) && Get(m, k) == Some(m[0].value);
    } else {
      SetSumBy(m[1..], k, v, f);
      SetSumByStep(m, k, v, f);
    }
  }

  /** The inductive step of `SetSumBy`: an entry under another key in front changes nothing. */
  lemma SetSumByStep<V>(m: OMap<V>, k: int, v: V, f: V -> int)
    requires |m| > 0 && m[0].key != k
    requires SumBy(Values(Set(m[1..], k, v)), f) ==
      SumBy(Values(m[1..]), f) + f(v) - (if HasKey(m[1..], k) then f(Get(m[1..], k).value) else 0)
    ensures SumBy(Values(Set(m, k, v)), f) ==
      SumBy(Values(m), f) + f(v) - (if HasKey(m, k) then f(Get(m, k).value) else 0)
  {
    var t := m[1..];
    var r := Set(m, k, v);
    assert r == [m[0]] + Set(t, k, v);
    assert r[1..] == Set(t, k, v);
    SumByValuesCons(r, f);
    SumByValuesCons(m, f);
    assert Get(m, k) == Get(t, k);
  }

  lemma SumByValuesCons<V>(m: OMap<V>, f: V -> int)
    requires |m| > 0
    ensures SumBy(Values(m), f) == f(m[0].value) + SumBy(Values(m[1..]), f)
  {
    assert Values(m)[1..] == Values(m[1..]);
  }

  /** `m.set(k, v)` keeps keys distinct. */
  lemma SetDistinctKeys<V>(m: OMap<V>, k: int, v: V)
    requires DistinctKeys(m)
    ensures DistinctKeys(Set(m, k, v))
  {
    if !HasKey(m, k) {
      var r := Set(m, k, v);
      forall i, j | 0 <= i < j < |r|
        ensures r[i].key != r[j].key
      {
        if j == |m| {
          assert r[i] == m[i];
        } else {
          assert r[i] == m[i] && r[j] == m[j];
        }
      }
    }
  }

  /** `m.delete(k)`: the map without `k`, and whether `k` was present. */
  function Delete<V>(m: OMap<V>, k: int): (r: (OMap<V>, bool))
    ensures r.1 <==> HasKey(m, k)
    ensures Get(r.0, k) == None
    ensures forall k' :: k' != k ==> Get(r.0, k') == Get(m, k')
    ensures IsSubsequence(r.0, m)
    ensures DistinctKeys(m) ==> DistinctKeys(r.0)
    ensures !HasKey(m, k) ==> r.0 == m
  {
    var kept := Filter(m, (e: Entry<V>) => e.key != k);
    FilterIsSubsequence(m, (e: Entry<V>) => e.key != k);
    FilterGet(m, k);
    SubsequenceDistinctKeys(kept, m);
    if !HasKey(m, k) then
      FilterKeepsAll(m, (e: Entry<V>) => e.key != k);
      (kept, false)
    else
      (kept, true)
  }

  /** Dropping the entries with key `k` leaves no `k` and every other lookup as it was. */
  lemma {:induction false} FilterGet<V>(m: OMap<V>, k: int)
    ensures Get(Filter(m, (e: Entry<V>) => e.key != k), k) == None
    ensures forall k' :: k' != k ==> Get(Filter(m, (e: Entry<V>) => e.key != k), k') == Get(m, k')
  {
    if |m| > 0 {
      var p := (e: Entry<V>) => e.key != k;
      var rest := Filter(m[1..], p);
      FilterGet(m[1..], k);
      if m[0].key == k {
        assert Filter(m, p) == rest;
      } else {
        var f := Filter(m, p);
        assert f == [m[0]] + rest;
        assert f[0] == m[0] && f[1..] == rest;
        forall k' | k' != k
          ensures Get(f, k') == Get(m, k')
        {
          if m[0].key != k' {
            assert Get(f, k') == Get(rest, k');
          }
        }
      }
    }
  }

  /** `Array.from(m.values())`: the values in insertion order. */
  function Values<V>(m: OMap<V>): (r: seq<V>)
    ensures |r| == |m|
    ensures forall i :: 0 <= i < |m| ==> r[i] == m[i].value
  {
    if |m| == 0 then [] else [m[0].value] + Values(m[1..])
  }

  /** Setting a key above every present key appends an entry, and its value comes last. */
  lemma SetFresh<V>(m: OMap<V>, k: int, v: V)
    requires forall i :: 0 <= i < |m| ==> m[i].key < k
    ensures Set(m, k, v) == m + [Entry(k, v)]
    ensures Values(Set(m, k, v)) == Values(m) + [v]
  {
    assert !HasKey(m, k);
    ValuesAppend(m, [Entry(k, v)]);
    assert Values([Entry(k, v)]) == [v];
  }

  /** Appending under a key above every present key leaves every key below the next one. */
  lemma AppendKeysBelow<V>(m: OMap<V>, k: int, v: V)
    requires forall i :: 0 <= i < |m| ==> m[i].key < k
    ensures forall i :: 0 <= i < |m + [Entry(k, v)]| ==> (m + [Entry(k, v)])[i].key < k + 1
  {
    var m' := m + [Entry(k, v)];
    forall i | 0 <= i < |m'|
      ensures m'[i].key < k + 1
    {
      if i < |m| {
        assert m'[i] == m[i];
      }
    }
  }

  lemma {:induction false} ValuesAppend<V>(a: OMap<V>, b: OMap<V>)
    ensures Values(a + b) == Values(a) + Values(b)
  {
    assert forall i :: 0 <= i < |a + b| ==> Values(a + b)[i] == (Values(a) + Values(b))[i];
  }

  /** Every entry of a subsequence is an entry of the whole. */
  lemma {:induction false} SubsequenceMembers<V>(a: OMap<V>, b: OMap<V>)
    requires IsSubsequence(a, b)
    ensures forall i :: 0 <= i < |a| ==> a[i] in b
    decreases |b|
  {
    if |a| > 0 {
      if a[0] == b[0] && IsSubsequence(a[1..], b[1..]) {
        SubsequenceMembers(a[1..], b[1..]);
        assert forall i :: 0 < i < |a| ==> a[i] == a[1..][i - 1];
      } else {
        SubsequenceMembers(a, b[1..]);
      }
    }
  }

  /** Deleting entries keeps keys distinct and keeps them ascending. */
  lemma SubsequenceDistinctKeys<V>(a: OMap<V>, b: OMap<V>)
    requires IsSubsequence(a, b)
    ensures forall i :: 0 <= i < |a| ==> a[i] in b
    ensures DistinctKeys(b) ==> DistinctKeys(a)
    ensures StrictlyAscending(b) ==> StrictlyAscending(a)
  {
    SubsequenceMembers(a, b);
    if DistinctKeys(b) {
      SubsequenceKeepsDistinct(a, b);
    }
    if StrictlyAscending(b) {
      SubsequenceKeepsAscending(a, b);
    }
  }

  lemma {:induction false} SubsequenceKeepsDistinct<V>(a: OMap<V>, b: OMap<V>)
    requires IsSubsequence(a, b) && DistinctKeys(b)
    ensures DistinctKeys(a)
    decreases |b|
  {
    if |a| > 0 {
      var u := b[1..];
      assert DistinctKeys(u) by {
        forall i, j | 0 <= i < j < |u|
          ensures u[i].key != u[j].key
        {
          assert u[i] == b[i + 1] && u[j] == b[j + 1];
        }
      }
      if a[0] == b[0] && IsSubsequence(a[1..], u) {
        var t := a[1..];
        SubsequenceKeepsDistinct(t, u);
        SubsequenceMembers(t, u);
        forall i, j | 0 <= i < j < |a|
          ensures a[i].key != a[j].key
        {
          assert a[j] == t[j - 1];
          if i == 0 {
            var m :| 0 <= m < |u| && u[m] == t[j - 1];
            assert b[m + 1] == a[j];
          } else {
            assert a[i] == t[i - 1];
          }
        }
      } else {
        SubsequenceKeepsDistinct(a, u);
      }
    }
  }

  lemma {:induction false} SubsequenceKeepsAscending<V>(a: OMap<V>, b: OMap<V>)
    requires IsSubsequence(a, b) && StrictlyAscending(b)
    ensures StrictlyAscending(a)
    decreases |b|
  {
    if |a| > 0 {
      var u := b[1..];
      assert StrictlyAscending(u) by {
        forall i, j | 0 <= i < j < |u|
          ensures u[i].key < u[j].key
        {
          assert u[i] == b[i + 1] && u[j] == b[j + 1];
        }
      }
      if a[0] == b[0] && IsSubsequence(a[1..], u) {
        var t := a[1..];
        SubsequenceKeepsAscending(t, u);
        SubsequenceMembers(t, u);
        forall i, j | 0 <= i < j < |a|
          ensures a[i].key < a[j].key
        {
          assert a[j] == t[j - 1];
          if i == 0 {
            var m :| 0 <= m < |u| && u[m] == t[j - 1];
            assert b[m + 1] == a[j];
          } else {
            assert a[i] == t[i - 1];
          }
        }
      } else {
        SubsequenceKeepsAscending(a, u);
      }
    }
  }
}
