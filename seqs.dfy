/** Sequence helpers: `Array.prototype.filter`, removal at an index, and sums. */
module Seqs {

  /** `s.filter(p)`. */
  function Filter<T>(s: seq<T>, p: T -> bool): (r: seq<T>)
    ensures |r| <= |s|
    ensures forall k :: 0 <= k < |r| ==> r[k] in s && p(r[k])
    ensures forall k :: 0 <= k < |s| && p(s[k]) ==> s[k] in r
  {
    if s == [] then []
    else if p(s[0]) then [s[0]] + Filter(s[1..], p)
    else Filter(s[1..], p)
  }

  lemma {:induction false} FilterAppend<T>(a: seq<T>, b: seq<T>, p: T -> bool)
    ensures Filter(a + b, p) == Filter(a, p) + Filter(b, p)
  {
    if a == [] {
      assert a + b == b;
    } else {
      assert (a + b)[1..] == a[1..] + b;
      FilterAppend(a[1..], b, p);
    }
  }

  lemma FilterCons<T>(x: T, s: seq<T>, p: T -> bool)
    ensures Filter([x] + s, p) == (if p(x) then [x] else []) + Filter(s, p)
  {
    assert ([x] + s)[1..] == s;
  }

  lemma {:induction false} FilterAll<T>(s: seq<T>, p: T -> bool)
    requires forall k :: 0 <= k < |s| ==> p(s[k])
    ensures Filter(s, p) == s
  {
    if s != [] {
      FilterAll(s[1..], p);
    }
  }

  lemma {:induction false} FilterNone<T>(s: seq<T>, p: T -> bool)
    requires forall k :: 0 <= k < |s| ==> !p(s[k])
    ensures Filter(s, p) == []
  {
    if s != [] {
      FilterNone(s[1..], p);
    }
  }

  lemma {:induction false} FilterIdempotent<T>(s: seq<T>, p: T -> bool)
    ensures Filter(Filter(s, p), p) == Filter(s, p)
  {
    FilterAll(Filter(s, p), p);
  }

  /** Filtering twice keeps what passes both tests. */
  lemma {:induction false} FilterFilter<T>(s: seq<T>, p: T -> bool, q: T -> bool, both: T -> bool)
    requires forall x :: both(x) == (p(x) && q(x))
    ensures Filter(Filter(s, p), q) == Filter(s, both)
  {
    if s != [] {
      FilterFilter(s[1..], p, q, both);
      if p(s[0]) {
        assert ([s[0]] + Filter(s[1..], p))[1..] == Filter(s[1..], p);
      }
    }
  }

  /** `a` is `b` with some elements left out, the rest in their order. */
  predicate SubsequenceOf<T(==)>(a: seq<T>, b: seq<T>)
    decreases |b|
  {
    if a == [] then true
    else if b == [] then false
    else (a[0] == b[0] && SubsequenceOf(a[1..], b[1..])) || SubsequenceOf(a, b[1..])
  }

  lemma {:induction false} FilterSubsequence<T>(s: seq<T>, p: T -> bool)
    ensures SubsequenceOf(Filter(s, p), s)
  {
    if s != [] {
      FilterSubsequence(s[1..], p);
    }
  }

  lemma {:induction false} SubsequenceExtend<T>(a: seq<T>, b: seq<T>, c: seq<T>)
    requires SubsequenceOf(a, b)
    ensures SubsequenceOf(a + c, b + c)
    decreases |b|
  {
    if a == [] {
      assert a + c == c;
      SubsequenceSelf(c);
      SubsequenceSuffix(c, b);
    } else if b != [] {
      assert (a + c)[0] == a[0] && (a + c)[1..] == a[1..] + c;
      assert (b + c)[0] == b[0] && (b + c)[1..] == b[1..] + c;
      if a[0] == b[0] && SubsequenceOf(a[1..], b[1..]) {
        SubsequenceExtend(a[1..], b[1..], c);
      } else {
        SubsequenceExtend(a, b[1..], c);
      }
    }
  }

  lemma {:induction false} SubsequenceAppendRight<T>(a: seq<T>, b: seq<T>, c: seq<T>)
    requires SubsequenceOf(a, b)
    ensures SubsequenceOf(a, b + c)
    decreases |b|
  {
    if a != [] && b != [] {
      assert (b + c)[0] == b[0] && (b + c)[1..] == b[1..] + c;
      if a[0] == b[0] && SubsequenceOf(a[1..], b[1..]) {
        SubsequenceAppendRight(a[1..], b[1..], c);
      } else {
        SubsequenceAppendRight(a, b[1..], c);
      }
    }
  }

  lemma {:induction false} SubsequenceSelf<T>(s: seq<T>)
    ensures SubsequenceOf(s, s)
  {
    if s != [] {
      SubsequenceSelf(s[1..]);
    }
  }

  /** Elements put in front of the larger sequence keep the relation. */
  lemma {:induction false} SubsequenceSuffix<T>(a: seq<T>, b: seq<T>)
    requires SubsequenceOf(a, a)
    ensures SubsequenceOf(a, b + a)
    decreases |b|
  {
    if b == [] {
      assert b + a == a;
    } else {
      assert (b + a)[1..] == b[1..] + a;
      SubsequenceSuffix(a, b[1..]);
      if a != [] {
        assert SubsequenceOf(a, (b + a)[1..]);
      }
    }
  }

  /** `splice(i, 1)` on a copy: the sequence without its element at `i`. */
  function RemoveAt<T>(s: seq<T>, i: nat): (r: seq<T>)
    requires i < |s|
    ensures |r| == |s| - 1
    ensures forall k :: 0 <= k < i ==> r[k] == s[k]
    ensures forall k :: i <= k < |r| ==> r[k] == s[k + 1]
  {
    s[..i] + s[i + 1..]
  }

  /** `splice(i, 0, x)`: `x` inserted so that it ends up at index `i`. */
  function InsertAt<T>(s: seq<T>, i: nat, x: T): (r: seq<T>)
    requires i <= |s|
    ensures |r| == |s| + 1 && r[i] == x
    ensures forall k :: 0 <= k < i ==> r[k] == s[k]
    ensures forall k :: i < k < |r| ==> r[k] == s[k - 1]
  {
    s[..i] + [x] + s[i..]
  }

  function Sum(s: seq<int>): int {
    if s == [] then 0 else s[0] + Sum(s[1..])
  }

  lemma {:induction false} SumAppend(a: seq<int>, b: seq<int>)
    ensures Sum(a + b) == Sum(a) + Sum(b)
  {
    if a == [] {
      assert a + b == b;
    } else {
      assert (a + b)[1..] == a[1..] + b;
      SumAppend(a[1..], b);
    }
  }

  /** The number of elements satisfying `p`. */
  function Count<T>(s: seq<T>, p: T -> bool): (n: nat)
    ensures n <= |s|
  {
    |Filter(s, p)|
  }

  /** No element occurs twice, as in a JavaScript `Set` or a Python `set` read in insertion order. */
  predicate NoDup<T(==)>(s: seq<T>) {
    forall i, j :: 0 <= i < j < |s| ==> s[i] != s[j]
  }

  /** `Set.prototype.add` on an insertion-ordered set: a new element goes last. */
  function SetAdd<T(==,!new)>(s: seq<T>, x: T): (r: seq<T>)
    ensures forall y :: y in r <==> y in s || y == x
    ensures NoDup(s) ==> NoDup(r)
    ensures r != [] && (s != [] ==> r[0] == s[0])
  {
    if x in s then s else s + [x]
  }

  function KeysOf<T, K(==)>(s: seq<T>, key: T -> K): set<K> {
    if s == [] then {} else KeysOf(s[..|s| - 1], key) + {key(s[|s| - 1])}
  }

  lemma KeysOfAppend<T, K>(s: seq<T>, x: T, key: T -> K)
    ensures KeysOf(s + [x], key) == KeysOf(s, key) + {key(x)}
  {
    assert (s + [x])[..|s|] == s;
  }

  lemma {:induction false} KeysOfHas<T, K>(s: seq<T>, i: nat, key: T -> K)
    requires i < |s|
    ensures key(s[i]) in KeysOf(s, key)
  {
    if i < |s| - 1 {
      KeysOfHas(s[..|s| - 1], i, key);
    }
  }

  lemma {:induction false} KeysOfWitness<T, K>(s: seq<T>, k: K, key: T -> K)
    requires k in KeysOf(s, key)
    ensures exists i :: 0 <= i < |s| && key(s[i]) == k
  {
    var n := |s| - 1;
    if k != key(s[n]) {
      KeysOfWitness(s[..n], k, key);
      var i :| 0 <= i < n && key(s[..n][i]) == k;
      assert s[..n][i] == s[i];
    }
  }

  /** The elements of `s` whose key no earlier element has, in order: the
      first element of every key. */
  function FirstByKey<T, K(==)>(s: seq<T>, key: T -> K): seq<T> {
    if s == [] then []
    else
      var k := FirstByKey(s[..|s| - 1], key);
      if key(s[|s| - 1]) in KeysOf(k, key) then k else k + [s[|s| - 1]]
  }

  /** One more element of the input: kept exactly when its key is new. */
  lemma FirstByKeyStep<T, K>(s: seq<T>, i: nat, key: T -> K)
    requires i < |s|
    ensures FirstByKey(s[..i + 1], key) ==
      if key(s[i]) in KeysOf(FirstByKey(s[..i], key), key) then FirstByKey(s[..i], key)
      else FirstByKey(s[..i], key) + [s[i]]
  {
    assert s[..i + 1][..i] == s[..i];
  }

  lemma {:induction false} FirstByKeyFromInput<T, K>(s: seq<T>, key: T -> K)
    ensures SubsequenceOf(FirstByKey(s, key), s)
  {
    if s != [] {
      var n := |s| - 1;
      FirstByKeyFromInput(s[..n], key);
      var k := FirstByKey(s[..n], key);
      if key(s[n]) in KeysOf(k, key) {
        SubsequenceAppendRight(k, s[..n], [s[n]]);
      } else {
        SubsequenceExtend(k, s[..n], [s[n]]);
      }
      assert s[..n] + [s[n]] == s;
    }
  }

  /** No two kept elements share a key. */
  lemma {:induction false} FirstByKeyDistinct<T, K>(s: seq<T>, key: T -> K)
    ensures forall i, j :: 0 <= i < j < |FirstByKey(s, key)| ==> key(FirstByKey(s, key)[i]) != key(FirstByKey(s, key)[j])
  {
    if s != [] {
      var n := |s| - 1;
      FirstByKeyDistinct(s[..n], key);
      var k := FirstByKey(s[..n], key);
      if key(s[n]) !in KeysOf(k, key) {
        forall i, j | 0 <= i < j < |k| + 1
          ensures key((k + [s[n]])[i]) != key((k + [s[n]])[j])
        {
          if j == |k| {
            KeysOfHas(k, i, key);
          } else {
            assert (k + [s[n]])[i] == k[i] && (k + [s[n]])[j] == k[j];
          }
        }
      }
    }
  }

  /** Every key of the input is kept. */
  lemma {:induction false} FirstByKeyCovers<T, K>(s: seq<T>, key: T -> K)
    ensures KeysOf(FirstByKey(s, key), key) == KeysOf(s, key)
  {
    if s != [] {
      var n := |s| - 1;
      FirstByKeyCovers(s[..n], key);
      var k := FirstByKey(s[..n], key);
      if key(s[n]) !in KeysOf(k, key) {
        KeysOfAppend(k, s[n], key);
      }
    }
  }

  /** An element whose key repeats the previous one's is dropped. */
  lemma FirstByKeyDropsRepeat<T, K>(p: T, q: T, key: T -> K)
    requires key(p) == key(q)
    ensures FirstByKey([p, q], key) == [p]
  {
    assert [p, q][..1] == [p];
    assert [p][..0] == [];
    assert FirstByKey([p], key) == [p];
    assert KeysOf([p], key) == {key(p)};
  }

  /** A sequence whose keys are already distinct is kept whole. */
  lemma {:induction false} FirstByKeyOfDistinct<T, K>(s: seq<T>, key: T -> K)
    requires forall i, j :: 0 <= i < j < |s| ==> key(s[i]) != key(s[j])
    ensures FirstByKey(s, key) == s
  {
    if s != [] {
      var n := |s| - 1;
      FirstByKeyOfDistinct(s[..n], key);
      if key(s[n]) in KeysOf(s[..n], key) {
        KeysOfWitness(s[..n], key(s[n]), key);
        assert false;
      }
      assert s[..n] + [s[n]] == s;
    }
  }
}
