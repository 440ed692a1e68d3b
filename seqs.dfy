/** Sequence operations shared by the model: JavaScript's `Array.prototype.filter`,
    a stable sort by an integer key (what `Array.prototype.sort` does with a
    numeric comparator), `slice(0, n)` and the subsequence relation. */
module Seqs {

  /** `s.filter(p)`: the elements of `s` that satisfy `p`, in order. */
  function Filter<T>(s: seq<T>, p: T -> bool): (r: seq<T>)
    ensures |r| <= |s|
    ensures forall i :: 0 <= i < |r| ==> p(r[i])
  {
    if s == [] then [] else (if p(s[0]) then [s[0]] else []) + Filter(s[1..], p)
  }

  /** An element is kept exactly when it is in `s` and satisfies `p`. */
  lemma {:induction false} FilterMembers<T>(s: seq<T>, p: T -> bool)
    ensures forall x :: x in Filter(s, p) <==> x in s && p(x)
  {
    if s != [] {
      FilterMembers(s[1..], p);
      assert s == [s[0]] + s[1..];
    }
  }

  lemma {:induction false} FilterAppend<T>(a: seq<T>, b: seq<T>, p: T -> bool)
    ensures Filter(a + b, p) == Filter(a, p) + Filter(b, p)
  {
    if a == [] {
      assert a + b == b;
    } else {
      assert (a + b)[1..] == a[1..] + b;
      FilterAppend(a[1..], b, p);
    }
  }

  /** A filter keeps every occurrence of an accepted element and none of a rejected one. */
  lemma {:induction false} FilterCount<T>(s: seq<T>, p: T -> bool)
    ensures forall x :: multiset(Filter(s, p))[x] == if p(x) then multiset(s)[x] else 0
  {
    if s != [] {
      FilterCount(s[1..], p);
      assert s == [s[0]] + s[1..];
    }
  }

  /** Filtering by each of two predicates in turn keeps the same elements as filtering once by both. */
  lemma {:induction false} FilterTwice<T>(s: seq<T>, p: T -> bool, q: T -> bool, pq: T -> bool)
    requires forall x :: pq(x) == (p(x) && q(x))
    ensures Filter(Filter(s, p), q) == Filter(s, pq)
  {
    if s != [] {
      FilterTwice(s[1..], p, q, pq);
      var fp := Filter(s, p);
      if p(s[0]) {
        assert fp == [s[0]] + Filter(s[1..], p);
        assert fp[0] == s[0] && fp[1..] == Filter(s[1..], p);
        assert Filter(fp, q) == (if q(s[0]) then [s[0]] else []) + Filter(fp[1..], q);
      } else {
        assert fp == Filter(s[1..], p);
      }
    }
  }

  /** A filter that every element passes changes nothing. */
  lemma {:induction false} FilterAll<T>(s: seq<T>, p: T -> bool)
    requires forall i :: 0 <= i < |s| ==> p(s[i])
    ensures Filter(s, p) == s
  {
    if s != [] {
      FilterAll(s[1..], p);
    }
  }

  /** Filters by predicates that agree on every element keep the same elements. */
  lemma {:induction false} FilterExt<T>(s: seq<T>, p: T -> bool, q: T -> bool)
    requires forall i :: 0 <= i < |s| ==> p(s[i]) == q(s[i])
    ensures Filter(s, p) == Filter(s, q)
  {
    if s != [] {
      FilterExt(s[1..], p, q);
    }
  }

  /** A filter applied only when `on` holds is the filter by "`on` implies `p`". */
  lemma OptionalFilter<T>(s: seq<T>, on: bool, p: T -> bool, q: T -> bool)
    requires forall x :: q(x) == (!on || p(x))
    ensures (if on then Filter(s, p) else s) == Filter(s, q)
  {
    if on {
      FilterExt(s, p, q);
    } else {
      FilterAll(s, q);
    }
  }

  /** A filter that no element passes keeps nothing. */
  lemma {:induction false} FilterNone<T>(s: seq<T>, p: T -> bool)
    requires forall i :: 0 <= i < |s| ==> !p(s[i])
    ensures Filter(s, p) == []
  {
    if s != [] {
      FilterNone(s[1..], p);
    }
  }

  /** Filtering by a predicate and by its negation splits `s` into two parts that together
      hold every element of `s` exactly as often. */
  lemma {:induction false} FilterSplitMultiset<T>(s: seq<T>, p: T -> bool, q: T -> bool)
    requires forall x :: q(x) == !p(x)
    ensures multiset(Filter(s, p)) + multiset(Filter(s, q)) == multiset(s)
  {
    if s != [] {
      FilterSplitMultiset(s[1..], p, q);
      var a, b := Filter(s[1..], p), Filter(s[1..], q);
      assert s == [s[0]] + s[1..];
      assert multiset(s) == multiset{s[0]} + multiset(s[1..]);
      if p(s[0]) {
        assert Filter(s, p) == [s[0]] + a && Filter(s, q) == b;
        assert multiset(Filter(s, p)) == multiset{s[0]} + multiset(a);
      } else {
        assert Filter(s, q) == [s[0]] + b && Filter(s, p) == a;
        assert multiset(Filter(s, q)) == multiset{s[0]} + multiset(b);
      }
    }
  }

  /** `a` is obtained from `b` by deleting elements, keeping the order of the rest. */
  predicate IsSubsequence<T(==)>(a: seq<T>, b: seq<T>)
    decreases |b|
  {
    if a == [] then true
    else if b == [] then false
    else if a[0] == b[0] then IsSubsequence(a[1..], b[1..])
    else IsSubsequence(a, b[1..])
  }

  lemma {:induction false} SubsequenceOfItself<T>(s: seq<T>)
    ensures IsSubsequence(s, s)
  {
    if s != [] {
      SubsequenceOfItself(s[1..]);
    }
  }

  lemma {:induction false} FilterIsSubsequence<T>(s: seq<T>, p: T -> bool)
    ensures IsSubsequence(Filter(s, p), s)
  {
    if s != [] {
      FilterIsSubsequence(s[1..], p);
      var r := Filter(s, p);
      if p(s[0]) {
        assert r == [s[0]] + Filter(s[1..], p);
        assert r[1..] == Filter(s[1..], p);
      } else if r != [] {
        assert r == Filter(s[1..], p);
        assert p(r[0]);
        assert r[0] != s[0];
      }
    }
  }

  /** `s.slice(0, n)`. */
  function Take<T>(s: seq<T>, n: nat): (r: seq<T>)
    ensures |r| == if n < |s| then n else |s|
    ensures forall i :: 0 <= i < |r| ==> r[i] == s[i]
  {
    if n < |s| then s[..n] else s
  }

  /** The key of each element is at least that of every later one. */
  ghost predicate SortedDesc<T>(s: seq<T>, key: T -> int) {
    forall i, j :: 0 <= i < j < |s| ==> key(s[i]) >= key(s[j])
  }

  /** Inserts `x` into a sorted `s` after every element whose key is at least `key(x)`. */
  function InsertDesc<T>(x: T, s: seq<T>, key: T -> int): seq<T> {
    if s == [] || key(s[0]) < key(x) then [x] + s else [s[0]] + InsertDesc(x, s[1..], key)
  }

  /** Stable sort by `key`, largest first: `s.sort((a, b) => key(b) - key(a))`. */
  function SortDesc<T>(s: seq<T>, key: T -> int): seq<T> {
    if s == [] then [] else InsertDesc(s[|s| - 1], SortDesc(s[..|s| - 1], key), key)
  }

  lemma {:induction false} InsertDescMultiset<T>(x: T, s: seq<T>, key: T -> int)
    ensures multiset(InsertDesc(x, s, key)) == multiset(s) + multiset{x}
  {
    if s != [] && key(s[0]) >= key(x) {
      InsertDescMultiset(x, s[1..], key);
      assert s == [s[0]] + s[1..];
    }
  }

  lemma {:induction false} InsertDescSorted<T>(x: T, s: seq<T>, key: T -> int)
    requires SortedDesc(s, key)
    ensures SortedDesc(InsertDesc(x, s, key), key)
    ensures InsertDesc(x, s, key)[0] == x || InsertDesc(x, s, key)[0] == s[0]
  {
    if s != [] && key(s[0]) >= key(x) {
      InsertDescSorted(x, s[1..], key);
      var t := InsertDesc(x, s[1..], key);
      assert key(s[0]) >= key(t[0]) by {
        if t[0] != x {
          assert t[0] == s[1..][0] == s[1];
        }
      }
      assert SortedDesc([s[0]] + t, key) by {
        forall i, j | 0 <= i < j < |t| + 1 ensures key(([s[0]] + t)[i]) >= key(([s[0]] + t)[j]) {
          if i == 0 {
            assert key(t[0]) >= key(t[j - 1]) || j == 1;
          }
        }
      }
    }
  }

  /** The sort returns a permutation of its input ordered by `key`, largest first. */
  lemma {:induction false} SortDescCorrect<T>(s: seq<T>, key: T -> int)
    ensures SortedDesc(SortDesc(s, key), key)
    ensures multiset(SortDesc(s, key)) == multiset(s)
    ensures |SortDesc(s, key)| == |s|
  {
    if s != [] {
      var init := s[..|s| - 1];
      SortDescCorrect(init, key);
      InsertDescSorted(s[|s| - 1], SortDesc(init, key), key);
      InsertDescMultiset(s[|s| - 1], SortDesc(init, key), key);
      assert s == init + [s[|s| - 1]];
      assert multiset(s) == multiset(init) + multiset{s[|s| - 1]};
    }
    assert |SortDesc(s, key)| == |multiset(SortDesc(s, key))|;
  }

  /** The predicate "has key `k`". */
  function KeyIs<T>(key: T -> int, k: int): T -> bool {
    x => key(x) == k
  }

  lemma {:induction false} InsertDescStable<T>(x: T, s: seq<T>, key: T -> int, k: int)
    requires SortedDesc(s, key)
    ensures Filter(InsertDesc(x, s, key), KeyIs(key, k)) == Filter(s, KeyIs(key, k)) + Filter([x], KeyIs(key, k))
  {
    var p := KeyIs(key, k);
    if s == [] {
    } else if key(s[0]) < key(x) {
      // every element of s has a key below key(x)
      if key(x) == k {
        NoneHasKey(s, key, k);
      }
      assert [x] + s == [x] + s;
      FilterAppend([x], s, p);
    } else {
      InsertDescStable(x, s[1..], key, k);
      assert InsertDesc(x, s, key) == [s[0]] + InsertDesc(x, s[1..], key);
      FilterAppend([s[0]], InsertDesc(x, s[1..], key), p);
      FilterAppend([s[0]], s[1..], p);
      assert [s[0]] + s[1..] == s;
    }
  }

  lemma NoneHasKey<T>(s: seq<T>, key: T -> int, k: int)
    requires SortedDesc(s, key) && s != [] && key(s[0]) < k
    ensures Filter(s, KeyIs(key, k)) == []
  {
    assert forall i :: 0 <= i < |s| ==> !KeyIs(key, k)(s[i]);
  }

  /** Stability: elements with equal keys keep their relative order. */
  lemma {:induction false} SortDescStable<T>(s: seq<T>, key: T -> int, k: int)
    ensures Filter(SortDesc(s, key), KeyIs(key, k)) == Filter(s, KeyIs(key, k))
  {
    if s != [] {
      var init := s[..|s| - 1];
      SortDescStable(init, key, k);
      SortDescCorrect(init, key);
      InsertDescStable(s[|s| - 1], SortDesc(init, key), key, k);
      assert s == init + [s[|s| - 1]];
      FilterAppend(init, [s[|s| - 1]], KeyIs(key, k));
    }
  }
}

module SeqSums {
  import opened Wrappers
  import opened Seqs

  /** Index of the first element satisfying `p`, or -1 (JavaScript's `findIndex`,
      Kotlin's `indexOfFirst`). */
  function IndexWhere<T>(s: seq<T>, p: T -> bool): (i: int)
    ensures -1 <= i < |s|
    ensures i == -1 <==> forall j :: 0 <= j < |s| ==> !p(s[j])
    ensures i >= 0 ==> p(s[i]) && forall j :: 0 <= j < i ==> !p(s[j])
  {
    if s == [] then -1
    else if p(s[0]) then 0
    else var k := IndexWhere(s[1..], p); if k == -1 then -1 else k + 1
  }

  /** The first element satisfying `p`, if any (JavaScript's `find`, with `undefined` as `None`). */
  function Find<T>(s: seq<T>, p: T -> bool): (r: Option<T>)
    ensures r.None? <==> forall j :: 0 <= j < |s| ==> !p(s[j])
    ensures r.Some? ==>
              exists i :: 0 <= i < |s| && s[i] == r.value && p(s[i]) && forall j :: 0 <= j < i ==> !p(s[j])
  {
    var i := IndexWhere(s, p);
    if i == -1 then None else Some(s[i])
  }

  /** No element occurs twice. */
  predicate Distinct<T(==)>(s: seq<T>) {
    forall i, j :: 0 <= i < j < |s| ==> s[i] != s[j]
  }

  /** The sum of `f` over the elements of `s` (a `reduce` with an initial 0). */
  function SumOf<T>(s: seq<T>, f: T -> int): int {
    if s == [] then 0 else f(s[0]) + SumOf(s[1..], f)
  }

  lemma {:induction false} SumOfAppend<T>(a: seq<T>, b: seq<T>, f: T -> int)
    ensures SumOf(a + b, f) == SumOf(a, f) + SumOf(b, f)
  {
    if a == [] {
      assert a + b == b;
    } else {
      assert (a + b)[1..] == a[1..] + b;
      SumOfAppend(a[1..], b, f);
    }
  }

  lemma MultisetRemove<T>(b: seq<T>, i: int)
    requires 0 <= i < |b|
    ensures multiset(b[..i] + b[i + 1..]) == multiset(b) - multiset{b[i]}
  {
    assert b == b[..i] + [b[i]] + b[i + 1..];
  }

  lemma SumOfRemove<T>(b: seq<T>, i: int, f: T -> int)
    requires 0 <= i < |b|
    ensures SumOf(b, f) == f(b[i]) + SumOf(b[..i] + b[i + 1..], f)
  {
    var pre, rest := b[..i], b[i + 1..];
    var c := [b[i]] + rest;
    assert SumOf(c, f) == f(b[i]) + SumOf(rest, f) by {
      assert c[0] == b[i] && c[1..] == rest;
    }
    assert SumOf(b, f) == SumOf(pre, f) + SumOf(c, f) by {
      assert b == pre + c;
      SumOfAppend(pre, c, f);
    }
    SumOfAppend(pre, rest, f);
  }

  /** Reordering does not change a sum. */
  lemma {:induction false} SumOfPermutation<T>(a: seq<T>, b: seq<T>, f: T -> int)
    requires multiset(a) == multiset(b)
    ensures SumOf(a, f) == SumOf(b, f)
  {
    if a == [] {
      assert |b| == |multiset(b)| == 0;
    } else {
      var x := a[0];
      assert x in multiset(b);
      var i :| 0 <= i < |b| && b[i] == x;
      MultisetRemove(b, i);
      MultisetRemove(a, 0);
      SumOfPermutation(a[1..], b[..i] + b[i + 1..], f);
      SumOfRemove(b, i, f);
    }
  }

  lemma {:induction false} SumOfZero<T>(s: seq<T>, f: T -> int)
    requires forall x :: f(x) == 0
    ensures SumOf(s, f) == 0
  {
    if s != [] {
      SumOfZero(s[1..], f);
    }
  }

  lemma {:induction false} SumOfAdd<T>(s: seq<T>, f: T -> int, g: T -> int, h: T -> int)
    requires forall x :: h(x) == f(x) + g(x)
    ensures SumOf(s, h) == SumOf(s, f) + SumOf(s, g)
  {
    if s != [] {
      SumOfAdd(s[1..], f, g, h);
    }
  }

  lemma {:induction false} SumOfPointwise<T>(s: seq<T>, f: T -> int, g: T -> int)
    requires forall i :: 0 <= i < |s| ==> f(s[i]) == g(s[i])
    ensures SumOf(s, f) == SumOf(s, g)
  {
    if s != [] {
      SumOfPointwise(s[1..], f, g);
    }
  }

  /** Over distinct keys, a function that is `v` at `c` and 0 elsewhere sums to `v` if `c` is a key. */
  lemma {:induction false} SumOfIndicator<K>(ks: seq<K>, c: K, v: int, ind: K -> int)
    requires Distinct(ks)
    requires forall k :: ind(k) == if k == c then v else 0
    ensures SumOf(ks, ind) == if c in ks then v else 0
  {
    if ks != [] {
      SumOfIndicator(ks[1..], c, v, ind);
      if ks[0] == c {
        assert c !in ks[1..];
      }
    }
  }

  /** Splitting a filter into two disjoint filters splits its sum. */
  lemma {:induction false} FilterSplitSum<T>(s: seq<T>, p: T -> bool, q: T -> bool, r: T -> bool, w: T -> int)
    requires forall x :: p(x) == (q(x) || r(x)) && !(q(x) && r(x))
    ensures SumOf(Filter(s, p), w) == SumOf(Filter(s, q), w) + SumOf(Filter(s, r), w)
  {
    if s != [] {
      FilterSplitSum(s[1..], p, q, r, w);
      SumOfAppend(if p(s[0]) then [s[0]] else [], Filter(s[1..], p), w);
      SumOfAppend(if q(s[0]) then [s[0]] else [], Filter(s[1..], q), w);
      SumOfAppend(if r(s[0]) then [s[0]] else [], Filter(s[1..], r), w);
    }
  }

  /** The predicate "is in class `k`". */
  function ClassIs<T, K(==)>(cls: T -> K, k: K): T -> bool {
    x => cls(x) == k
  }

  /** For each key, the total weight of the elements in that class. */
  function ClassWeight<T, K(==)>(s: seq<T>, cls: T -> K, w: T -> int): K -> int {
    k => SumOf(Filter(s, ClassIs(cls, k)), w)
  }

  /** When every element's class is one of the distinct keys `ks`, the per-class totals
      add up to the total. */
  lemma {:induction false} PartitionSum<T, K>(s: seq<T>, ks: seq<K>, cls: T -> K, w: T -> int)
    requires Distinct(ks)
    requires forall i :: 0 <= i < |s| ==> cls(s[i]) in ks
    ensures SumOf(ks, ClassWeight(s, cls, w)) == SumOf(s, w)
  {
    if s == [] {
      SumOfZero(ks, ClassWeight(s, cls, w));
    } else {
      var x := s[0];
      PartitionSum(s[1..], ks, cls, w);
      var ind := (k: K) => if k == cls(x) then w(x) else 0;
      forall k ensures ClassWeight(s, cls, w)(k) == ind(k) + ClassWeight(s[1..], cls, w)(k) {
        var one := if ClassIs(cls, k)(x) then [x] else [];
        assert Filter(s, ClassIs(cls, k)) == one + Filter(s[1..], ClassIs(cls, k));
        SumOfAppend(one, Filter(s[1..], ClassIs(cls, k)), w);
      }
      SumOfAdd(ks, ind, ClassWeight(s[1..], cls, w), ClassWeight(s, cls, w));
      assert cls(s[0]) in ks;
      SumOfIndicator(ks, cls(x), w(x), ind);
      assert SumOf(ks, ind) == w(x);
      assert SumOf(s, w) == w(x) + SumOf(s[1..], w);
      assert SumOf(ks, ClassWeight(s, cls, w)) == SumOf(ks, ind) + SumOf(ks, ClassWeight(s[1..], cls, w));
    }
  }

  /** The distinct classes of the elements of `s`, in the order of their first occurrence
      (the key order of a JavaScript object filled by a `forEach` over `s`). */
  function FirstSeen<T, K(==)>(s: seq<T>, cls: T -> K): (r: seq<K>)
    ensures Distinct(r)
    ensures forall i :: 0 <= i < |s| ==> cls(s[i]) in r
    ensures forall j :: 0 <= j < |r| ==> exists i :: 0 <= i < |s| && cls(s[i]) == r[j]
    decreases |s|
  {
    if s == [] then []
    else
      var init := FirstSeen(s[..|s| - 1], cls);
      var c := cls(s[|s| - 1]);
      assert forall i :: 0 <= i < |s| - 1 ==> s[..|s| - 1][i] == s[i];
      if c in init then init else init + [c]
  }

  /** One more element adds its class at the end, unless the class was seen before. */
  lemma FirstSeenSnoc<T, K>(s: seq<T>, x: T, cls: T -> K)
    ensures FirstSeen(s + [x], cls) ==
      var keys := FirstSeen(s, cls);
      if cls(x) in keys then keys else keys + [cls(x)]
  {
    assert (s + [x])[..|s + [x]| - 1] == s;
    assert (s + [x])[|s + [x]| - 1] == x;
  }

  /** Sums over two sequences agree when their elements agree position by position. */
  lemma {:induction false} SumOfMapped<T, U>(a: seq<T>, b: seq<U>, f: T -> int, g: U -> int)
    requires |a| == |b|
    requires forall i :: 0 <= i < |a| ==> f(a[i]) == g(b[i])
    ensures SumOf(a, f) == SumOf(b, g)
  {
    if a != [] {
      SumOfMapped(a[1..], b[1..], f, g);
    }
  }

  /** Summing over a filter is summing a weight that is 0 off the filter. */
  lemma {:induction false} FilterSumMasked<T>(s: seq<T>, p: T -> bool, w: T -> int, m: T -> int)
    requires forall x :: m(x) == if p(x) then w(x) else 0
    ensures SumOf(Filter(s, p), w) == SumOf(s, m)
  {
    if s != [] {
      FilterSumMasked(s[1..], p, w, m);
      SumOfAppend(if p(s[0]) then [s[0]] else [], Filter(s[1..], p), w);
    }
  }

  lemma {:induction false} SumOfSub<T>(s: seq<T>, f: T -> int, g: T -> int, h: T -> int)
    requires forall x :: h(x) == f(x) - g(x)
    ensures SumOf(s, h) == SumOf(s, f) - SumOf(s, g)
  {
    if s != [] {
      SumOfSub(s[1..], f, g, h);
    }
  }

  /** Counting is summing ones. */
  lemma {:induction false} SumOfOnes<T>(s: seq<T>, one: T -> int)
    requires forall x :: one(x) == 1
    ensures SumOf(s, one) == |s|
  {
    if s != [] {
      SumOfOnes(s[1..], one);
    }
  }

  /** The groups `g(k)` of the keys `ks`, one after another. */
  function Concat<K, T>(ks: seq<K>, g: K -> seq<T>): seq<T> {
    if ks == [] then [] else g(ks[0]) + Concat(ks[1..], g)
  }

  lemma {:induction false} ConcatPointwise<K, T>(ks: seq<K>, g: K -> seq<T>, h: K -> seq<T>)
    requires forall i :: 0 <= i < |ks| ==> g(ks[i]) == h(ks[i])
    ensures Concat(ks, g) == Concat(ks, h)
  {
    if ks != [] {
      ConcatPointwise(ks[1..], g, h);
    }
  }

  /** The elements of class `k`. */
  function ClassFilter<T, K(==)>(s: seq<T>, cls: T -> K): K -> seq<T> {
    k => Filter(s, ClassIs(cls, k))
  }

  lemma {:induction false} FilterKeepsClasses<T, K>(s: seq<T>, p: T -> bool, cls: T -> K, ks: seq<K>)
    requires forall i :: 0 <= i < |s| ==> cls(s[i]) in ks
    ensures forall i :: 0 <= i < |Filter(s, p)| ==> cls(Filter(s, p)[i]) in ks
  {
    if s != [] {
      FilterKeepsClasses(s[1..], p, cls, ks);
    }
  }

  /** When every element's class is one of the distinct keys `ks`, the classes of `ks`
      taken together hold every element of `s` exactly as often as `s` does. */
  lemma {:induction false} PartitionMultiset<T, K>(s: seq<T>, ks: seq<K>, cls: T -> K)
    requires Distinct(ks)
    requires forall i :: 0 <= i < |s| ==> cls(s[i]) in ks
    ensures multiset(Concat(ks, ClassFilter(s, cls))) == multiset(s)
    decreases |ks|
  {
    if ks == [] {
      assert |s| == 0;
    } else {
      var k0 := ks[0];
      var isK0 := ClassIs(cls, k0);
      var notK0 := (x: T) => !isK0(x);
      var rest := Filter(s, notK0);
      FilterSplitMultiset(s, isK0, notK0);
      FilterKeepsClasses(s, notK0, cls, ks);
      forall i | 0 <= i < |rest| ensures cls(rest[i]) in ks[1..] {
        assert notK0(rest[i]);
      }
      assert Distinct(ks[1..]) by {
        forall a, b | 0 <= a < b < |ks[1..]| ensures ks[1..][a] != ks[1..][b] {
          assert ks[1..][a] == ks[a + 1] && ks[1..][b] == ks[b + 1];
        }
      }
      PartitionMultiset(rest, ks[1..], cls);
      forall i | 0 <= i < |ks[1..]|
        ensures ClassFilter(s, cls)(ks[1..][i]) == ClassFilter(rest, cls)(ks[1..][i])
      {
        var k := ks[1..][i];
        assert k != k0 by { assert k == ks[i + 1]; }
        FilterTwice(s, notK0, ClassIs(cls, k), ClassIs(cls, k));
      }
      ConcatPointwise(ks[1..], ClassFilter(s, cls), ClassFilter(rest, cls));
      assert Concat(ks, ClassFilter(s, cls)) == Filter(s, isK0) + Concat(ks[1..], ClassFilter(s, cls));
    }
  }
}
