/** Association lists: a JavaScript object or a Python dict whose keys keep
    their insertion order, as a sequence of key/value pairs. */
module Assoc {
  import opened Basics

  predicate HasKey<K(==), V>(m: seq<(K, V)>, k: K) {
    exists i :: 0 <= i < |m| && m[i].0 == k
  }

  predicate DistinctKeys<K(==), V>(m: seq<(K, V)>) {
    forall i, j :: 0 <= i < j < |m| ==> m[i].0 != m[j].0
  }

  /** A key is present when the first entry has it or the rest does. */
  lemma HasKeyCons<K, V>(m: seq<(K, V)>, k: K)
    requires m != []
    ensures HasKey(m, k) <==> m[0].0 == k || HasKey(m[1..], k)
  {
    if HasKey(m, k) && m[0].0 != k {
      var i :| 0 <= i < |m| && m[i].0 == k;
      assert m[1..][i - 1].0 == k;
    }
    if HasKey(m[1..], k) {
      var i :| 0 <= i < |m[1..]| && m[1..][i].0 == k;
      assert m[i + 1].0 == k;
    }
  }

  function Keys<K, V>(m: seq<(K, V)>): (ks: seq<K>)
    ensures |ks| == |m| && forall i :: 0 <= i < |m| ==> ks[i] == m[i].0
  {
    seq(|m|, i requires 0 <= i < |m| => m[i].0)
  }

  /** `obj[k]`: the value of the first entry with the key. */
  function Get<K(==), V>(m: seq<(K, V)>, k: K): (r: Option<V>)
    ensures r.None? <==> !HasKey(m, k)
    ensures r.Some? ==> (m[0].0 == k ==> r.value == m[0].1)
  {
    if m == [] then None
    else if m[0].0 == k then Some(m[0].1)
    else
      var r := Get(m[1..], k);
      assert HasKey(m[1..], k) ==> HasKey(m, k) by {
        if HasKey(m[1..], k) {
          var i :| 0 <= i < |m[1..]| && m[1..][i].0 == k;
          assert m[i + 1].0 == k;
        }
      }
      r
  }

  /** With distinct keys, the entry at `i` is the one `Get` finds for its key. */
  lemma {:induction false} GetAt<K, V>(m: seq<(K, V)>, i: nat)
    requires DistinctKeys(m) && i < |m|
    ensures Get(m, m[i].0) == Some(m[i].1)
  {
    if i > 0 {
      GetAt(m[1..], i - 1);
    }
  }

  /** `obj[k] = v`: an existing key keeps its place, a new key goes last. */
  function Put<K(==), V>(m: seq<(K, V)>, k: K, v: V): (r: seq<(K, V)>)
    ensures Get(r, k) == Some(v)
    ensures |r| == if HasKey(m, k) then |m| else |m| + 1
  {
    if m == [] then [(k, v)]
    else if m[0].0 == k then [(k, v)] + m[1..]
    else
      assert HasKey(m, k) <==> HasKey(m[1..], k) by {
        if HasKey(m, k) {
          var i :| 0 <= i < |m| && m[i].0 == k;
          assert m[1..][i - 1].0 == k;
        }
        if HasKey(m[1..], k) {
          var i :| 0 <= i < |m[1..]| && m[1..][i].0 == k;
          assert m[i + 1].0 == k;
        }
      }
      [m[0]] + Put(m[1..], k, v)
  }

  /** Writing an existing key changes no entry's key. */
  lemma {:induction false} PutPresent<K, V>(m: seq<(K, V)>, k: K, v: V)
    requires HasKey(m, k)
    ensures |Put(m, k, v)| == |m| && forall i :: 0 <= i < |m| ==> Put(m, k, v)[i].0 == m[i].0
  {
    HasKeyCons(m, k);
    if m[0].0 != k {
      PutPresent(m[1..], k, v);
      var r := Put(m, k, v);
      assert r == [m[0]] + Put(m[1..], k, v);
      forall i | 0 <= i < |m|
        ensures r[i].0 == m[i].0
      {
        if i > 0 {
          assert r[i] == Put(m[1..], k, v)[i - 1];
        }
      }
    }
  }

  /** Writing a new key appends its entry. */
  lemma {:induction false} PutAbsent<K, V>(m: seq<(K, V)>, k: K, v: V)
    requires !HasKey(m, k)
    ensures Put(m, k, v) == m + [(k, v)]
  {
    if m != [] {
      HasKeyCons(m, k);
      PutAbsent(m[1..], k, v);
      assert m == [m[0]] + m[1..];
    }
  }

  /** Writing one key leaves every other key as it was. */
  lemma {:induction false} GetPutOther<K, V>(m: seq<(K, V)>, k: K, v: V, k': K)
    requires k' != k
    ensures Get(Put(m, k, v), k') == Get(m, k')
  {
    if m != [] && m[0].0 != k {
      GetPutOther(m[1..], k, v, k');
    }
  }

  lemma {:induction false} PutKeepsDistinct<K, V>(m: seq<(K, V)>, k: K, v: V)
    requires DistinctKeys(m)
    ensures DistinctKeys(Put(m, k, v))
  {
    var r := Put(m, k, v);
    if HasKey(m, k) {
      PutPresent(m, k, v);
    } else {
      PutAbsent(m, k, v);
      forall i, j | 0 <= i < j < |r|
        ensures r[i].0 != r[j].0
      {
        if j == |m| {
          assert r[i].0 == m[i].0;
        } else {
          assert r[i].0 == m[i].0 && r[j].0 == m[j].0;
        }
      }
    }
  }

  /** `delete obj[k]`. */
  function Remove<K(==), V>(m: seq<(K, V)>, k: K): (r: seq<(K, V)>)
    ensures !HasKey(r, k)
    ensures |r| <= |m|
    ensures forall i :: 0 <= i < |r| ==> r[i] in m
  {
    if m == [] then []
    else if m[0].0 == k then Remove(m[1..], k)
    else [m[0]] + Remove(m[1..], k)
  }

  lemma {:induction false} GetRemoveOther<K, V>(m: seq<(K, V)>, k: K, k': K)
    requires k' != k
    ensures Get(Remove(m, k), k') == Get(m, k')
  {
    if m != [] {
      GetRemoveOther(m[1..], k, k');
    }
  }

  /** The sum of `f` over the values, the shape of a `reduce` over `Object.keys`. */
  function SumBy<K, V>(m: seq<(K, V)>, f: V -> int): int {
    if m == [] then 0 else f(m[0].1) + SumBy(m[1..], f)
  }

  /** Overwriting one value of a map with distinct keys changes the sum by the
      difference, and a new key adds its value. */
  lemma {:induction false} SumByPut<K, V>(m: seq<(K, V)>, k: K, v: V, f: V -> int)
    requires DistinctKeys(m)
    ensures SumBy(Put(m, k, v), f) == SumBy(m, f) - (if Get(m, k).Some? then f(Get(m, k).value) else 0) + f(v)
  {
    if m != [] {
      if m[0].0 == k {
        assert !HasKey(m[1..], k) by {
          forall i | 0 <= i < |m[1..]|
            ensures m[1..][i].0 != k
          {
            assert m[1..][i] == m[i + 1];
          }
        }
      } else {
        SumByPut(m[1..], k, v, f);
      }
    }
  }

  /** With non-negative summands, one value never exceeds the sum. */
  lemma {:induction false} SumByAtLeastOne<K, V>(m: seq<(K, V)>, k: K, f: V -> int)
    requires forall i :: 0 <= i < |m| ==> f(m[i].1) >= 0
    requires Get(m, k).Some?
    ensures f(Get(m, k).value) <= SumBy(m, f)
  {
    SumByNonNegative(m[1..], f);
    if m[0].0 != k {
      SumByAtLeastOne(m[1..], k, f);
    }
  }

  lemma {:induction false} SumByZero<K, V>(m: seq<(K, V)>)
    ensures SumBy(m, (v: V) => 0) == 0
  {
    if m != [] {
      SumByZero(m[1..]);
    }
  }

  lemma {:induction false} SumByNonNegative<K, V>(m: seq<(K, V)>, f: V -> int)
    requires forall i :: 0 <= i < |m| ==> f(m[i].1) >= 0
    ensures SumBy(m, f) >= 0
  {
    if m != [] {
      SumByNonNegative(m[1..], f);
    }
  }

  lemma {:induction false} SumByAppend<K, V>(a: seq<(K, V)>, b: seq<(K, V)>, f: V -> int)
    ensures SumBy(a + b, f) == SumBy(a, f) + SumBy(b, f)
  {
    if a == [] {
      assert a + b == b;
    } else {
      assert (a + b)[1..] == a[1..] + b;
      SumByAppend(a[1..], b, f);
    }
  }

  /** The value `Get` finds is one of the entries. */
  lemma {:induction false} GetIn<K, V>(m: seq<(K, V)>, k: K)
    requires Get(m, k).Some?
    ensures (k, Get(m, k).value) in m
  {
    if m[0].0 != k {
      GetIn(m[1..], k);
    }
  }

  /** Every entry after `Put` is the written one or an entry that was there. */
  lemma {:induction false} PutEntries<K, V>(m: seq<(K, V)>, k: K, v: V)
    ensures forall i :: 0 <= i < |Put(m, k, v)| ==> Put(m, k, v)[i] == (k, v) || Put(m, k, v)[i] in m
  {
    if m != [] && m[0].0 != k {
      PutEntries(m[1..], k, v);
    }
  }

  lemma {:induction false} SumByMono<K, V>(m: seq<(K, V)>, f: V -> int, g: V -> int)
    requires forall i :: 0 <= i < |m| ==> f(m[i].1) <= g(m[i].1)
    ensures SumBy(m, f) <= SumBy(m, g)
  {
    if m != [] {
      SumByMono(m[1..], f, g);
    }
  }

  /** Converting every value, or nothing when one of them does not convert. */
  function MapValuesOpt<K, V, W>(m: seq<(K, V)>, f: V -> Option<W>): (r: Option<seq<(K, W)>>)
    ensures r.Some? <==> forall i :: 0 <= i < |m| ==> f(m[i].1).Some?
    ensures r.Some? ==> |r.value| == |m|
    ensures r.Some? ==> forall i :: 0 <= i < |m| ==> r.value[i].0 == m[i].0 && Some(r.value[i].1) == f(m[i].1)
  {
    if m == [] then Some([])
    else
      var rest := MapValuesOpt(m[1..], f);
      assert (forall i :: 0 <= i < |m| ==> f(m[i].1).Some?) <==>
        (f(m[0].1).Some? && forall i :: 0 <= i < |m[1..]| ==> f(m[1..][i].1).Some?) by {
        if f(m[0].1).Some? && forall i :: 0 <= i < |m[1..]| ==> f(m[1..][i].1).Some? {
          forall i | 0 <= i < |m|
            ensures f(m[i].1).Some?
          {
            if i > 0 {
              assert m[i] == m[1..][i - 1];
            }
          }
        }
      }
      if f(m[0].1).Some? && rest.Some? then Some([(m[0].0, f(m[0].1).value)] + rest.value) else None
  }

  /** The conversion keeps keys, so `Get` on it finds the converted value. */
  lemma {:induction false} GetMapValues<K, V, W>(m: seq<(K, V)>, f: V -> Option<W>, k: K)
    requires MapValuesOpt(m, f).Some?
    ensures Get(m, k).None? ==> Get(MapValuesOpt(m, f).value, k).None?
    ensures Get(m, k).Some? ==> Some(Get(MapValuesOpt(m, f).value, k).value) == f(Get(m, k).value)
  {
    var r := MapValuesOpt(m, f).value;
    if m != [] {
      assert r[0].0 == m[0].0;
      if m[0].0 != k {
        assert MapValuesOpt(m[1..], f).Some? by {
          forall i | 0 <= i < |m[1..]|
            ensures f(m[1..][i].1).Some?
          {
            assert m[1..][i] == m[i + 1];
          }
        }
        assert r[1..] == MapValuesOpt(m[1..], f).value;
        GetMapValues(m[1..], f, k);
      }
    }
  }

  /** The concatenation of `f` over the entries, in key order: a `forEach` that pushes. */
  function Gather<K, V, R>(m: seq<(K, V)>, f: (K, V) -> seq<R>): seq<R> {
    if m == [] then [] else Gather(m[..|m| - 1], f) + f(m[|m| - 1].0, m[|m| - 1].1)
  }

  lemma GatherPrefix<K, V, R>(m: seq<(K, V)>, f: (K, V) -> seq<R>, i: nat)
    requires i < |m|
    ensures Gather(m[..i + 1], f) == Gather(m[..i], f) + f(m[i].0, m[i].1)
  {
    assert m[..i + 1][..i] == m[..i];
  }

  /** The lengths of the pieces add up, when each piece's length is a function of the value. */
  lemma {:induction false} GatherLength<K, V, R>(m: seq<(K, V)>, f: (K, V) -> seq<R>, g: V -> int)
    requires forall i :: 0 <= i < |m| ==> |f(m[i].0, m[i].1)| == g(m[i].1)
    ensures |Gather(m, f)| == SumBy(m, g)
  {
    if m != [] {
      var n := |m| - 1;
      GatherLength(m[..n], f, g);
      assert m == m[..n] + [m[n]];
      SumByAppend(m[..n], [m[n]], g);
    }
  }

  /** Two partial results in sequence: the first failure wins. */
  function Chain<R>(a: Option<seq<R>>, b: Option<seq<R>>): Option<seq<R>> {
    if a.Some? && b.Some? then Some(a.value + b.value) else None
  }

  /** Like `Gather`, but a step may fail (a JavaScript exception), which aborts the whole walk. */
  function Collect<K, V, R>(m: seq<(K, V)>, step: (K, V) -> Option<seq<R>>): Option<seq<R>> {
    if m == [] then Some([]) else Chain(Collect(m[..|m| - 1], step), step(m[|m| - 1].0, m[|m| - 1].1))
  }

  lemma CollectPrefix<K, V, R>(m: seq<(K, V)>, step: (K, V) -> Option<seq<R>>, i: nat)
    requires i < |m|
    ensures Collect(m[..i + 1], step) == Chain(Collect(m[..i], step), step(m[i].0, m[i].1))
  {
    assert m[..i + 1][..i] == m[..i];
  }

  /** Once a prefix has failed, the whole walk fails. */
  lemma {:induction false} CollectFailed<K, V, R>(m: seq<(K, V)>, step: (K, V) -> Option<seq<R>>, i: nat)
    requires i <= |m| && Collect(m[..i], step).None?
    ensures Collect(m, step).None?
  {
    if i < |m| {
      var n := |m| - 1;
      assert m[..n][..i] == m[..i];
      CollectFailed(m[..n], step, i);
      assert m[..n] == m[..|m| - 1];
    } else {
      assert m[..i] == m;
    }
  }

  /** A walk whose every step succeeds with `f` of a matching entry of `n` gathers `n`. */
  lemma {:induction false} CollectIsGather<K, V, W, R>(m: seq<(K, V)>, step: (K, V) -> Option<seq<R>>,
                                                      n: seq<(K, W)>, f: (K, W) -> seq<R>)
    requires |m| == |n|
    requires forall i :: 0 <= i < |m| ==> m[i].0 == n[i].0 && step(m[i].0, m[i].1) == Some(f(n[i].0, n[i].1))
    ensures Collect(m, step) == Some(Gather(n, f))
  {
    if m != [] {
      var k := |m| - 1;
      CollectIsGather(m[..k], step, n[..k], f);
    }
  }

  /** A walk whose every step succeeds with nothing succeeds with nothing. */
  lemma {:induction false} CollectAllEmpty<K, V, R>(m: seq<(K, V)>, step: (K, V) -> Option<seq<R>>)
    requires forall i :: 0 <= i < |m| ==> step(m[i].0, m[i].1) == Some([])
    ensures Collect(m, step) == Some([])
  {
    if m != [] {
      var n := |m| - 1;
      forall i | 0 <= i < n
        ensures step(m[..n][i].0, m[..n][i].1) == Some([])
      {
        assert m[..n][i] == m[i];
      }
      CollectAllEmpty(m[..n], step);
      assert Collect(m[..n], step).value + step(m[n].0, m[n].1).value == [];
    }
  }

  /** Summing one more entry of a prefix, the step of an accumulating loop. */
  lemma SumByPrefix<K, V>(m: seq<(K, V)>, f: V -> int, i: nat)
    requires i < |m|
    ensures SumBy(m[..i + 1], f) == SumBy(m[..i], f) + f(m[i].1)
  {
    assert m[..i + 1] == m[..i] + [m[i]];
    SumByAppend(m[..i], [m[i]], f);
  }

  /** A key is looked up in the first part, then in the second. */
  lemma {:induction false} GetAppend<K, V>(a: seq<(K, V)>, b: seq<(K, V)>, k: K)
    ensures Get(a + b, k) == if Get(a, k).Some? then Get(a, k) else Get(b, k)
  {
    if a == [] {
      assert a + b == b;
    } else {
      assert (a + b)[0] == a[0] && (a + b)[1..] == a[1..] + b;
      GetAppend(a[1..], b, k);
    }
  }

  /** One entry added at the end keeps the keys distinct exactly when its key is new. */
  lemma DistinctSnoc<K, V>(m: seq<(K, V)>, e: (K, V))
    ensures DistinctKeys(m + [e]) <==> DistinctKeys(m) && !HasKey(m, e.0)
  {
    var r := m + [e];
    if DistinctKeys(r) {
      forall i, j | 0 <= i < j < |m|
        ensures m[i].0 != m[j].0
      {
        assert r[i] == m[i] && r[j] == m[j];
      }
      forall i | 0 <= i < |m|
        ensures m[i].0 != e.0
      {
        assert r[i] == m[i] && r[|m|] == e;
      }
    }
  }

  /** Two maps with distinct keys and no key in common concatenate to one. */
  lemma DistinctConcat<K, V>(a: seq<(K, V)>, b: seq<(K, V)>)
    requires DistinctKeys(a) && DistinctKeys(b)
    requires forall k :: HasKey(a, k) ==> !HasKey(b, k)
    ensures DistinctKeys(a + b)
  {
    var r := a + b;
    forall i, j | 0 <= i < j < |r|
      ensures r[i].0 != r[j].0
    {
      if i < |a| && j >= |a| {
        assert r[i] == a[i] && r[j] == b[j - |a|];
        assert HasKey(a, a[i].0);
        assert HasKey(b, b[j - |a|].0);
      } else if i < |a| {
        assert r[i] == a[i] && r[j] == a[j];
      } else {
        assert r[i] == b[i - |a|] && r[j] == b[j - |a|];
      }
    }
  }

  lemma {:induction false} RemoveKeepsDistinct<K, V>(m: seq<(K, V)>, k: K)
    requires DistinctKeys(m)
    ensures DistinctKeys(Remove(m, k))
  {
    if m != [] {
      RemoveKeepsDistinct(m[1..], k);
      if m[0].0 != k {
        var t := Remove(m[1..], k);
        forall i | 0 <= i < |t|
          ensures t[i].0 != m[0].0
        {
          var j :| 0 <= j < |m[1..]| && m[1..][j] == t[i];
          assert m[1..][j] == m[j + 1];
        }
        assert Remove(m, k) == [m[0]] + t;
      }
    }
  }
}
