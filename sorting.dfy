/**
 * The stable sort that `Array.prototype.sort` performs with a numeric
 * comparator `(a, b) => key(a) - key(b)`: ascending by key, elements with
 * equal keys kept in their original order.
 */
module Sorting {

  predicate SortedBy<T>(xs: seq<T>, key: T -> int) {
    forall i, j :: 0 <= i < j < |xs| ==> key(xs[i]) <= key(xs[j])
  }

  /** Places `x` before the first element whose key is not smaller. */
  function Insert<T>(x: T, ys: seq<T>, key: T -> int): (r: seq<T>)
    requires SortedBy(ys, key)
    ensures |r| == |ys| + 1
    ensures SortedBy(r, key)
    ensures r[0] == x || (ys != [] && r[0] == ys[0])
  {
    if ys == [] || key(x) <= key(ys[0]) then [x] + ys
    else
      var t := Insert(x, ys[1..], key);
      assert key(ys[0]) <= key(t[0]);
      [ys[0]] + t
  }

  lemma {:induction false} InsertMultiset<T>(x: T, ys: seq<T>, key: T -> int)
    requires SortedBy(ys, key)
    ensures multiset(Insert(x, ys, key)) == multiset(ys) + multiset{x}
    decreases |ys|
  {
    if ys == [] || key(x) <= key(ys[0]) {
    } else {
      InsertMultiset(x, ys[1..], key);
      assert ys == [ys[0]] + ys[1..];
    }
  }

  /** Stable ascending sort by `key`. */
  function SortBy<T>(xs: seq<T>, key: T -> int): (r: seq<T>)
    ensures |r| == |xs|
    ensures multiset(r) == multiset(xs)
    ensures SortedBy(r, key)
  {
    if xs == [] then []
    else
      assert xs == [xs[0]] + xs[1..];
      InsertMultiset(xs[0], SortBy(xs[1..], key), key);
      Insert(xs[0], SortBy(xs[1..], key), key)
  }

  /** The elements whose key is `v`, in order. */
  function KeyFilter<T>(xs: seq<T>, key: T -> int, v: int): seq<T> {
    if xs == [] then [] else (if key(xs[0]) == v then [xs[0]] else []) + KeyFilter(xs[1..], key, v)
  }

  lemma {:induction false} InsertFilter<T>(x: T, ys: seq<T>, key: T -> int, v: int)
    requires SortedBy(ys, key)
    ensures KeyFilter(Insert(x, ys, key), key, v) == (if key(x) == v then [x] else []) + KeyFilter(ys, key, v)
    decreases |ys|
  {
    if ys == [] || key(x) <= key(ys[0]) {
      assert ([x] + ys)[1..] == ys;
    } else {
      InsertFilter(x, ys[1..], key, v);
      var t := Insert(x, ys[1..], key);
      assert ([ys[0]] + t)[1..] == t;
    }
  }

  /** Stability: the elements sharing a key keep their relative order. */
  lemma {:induction false} SortByStable<T>(xs: seq<T>, key: T -> int, v: int)
    ensures KeyFilter(SortBy(xs, key), key, v) == KeyFilter(xs, key, v)
    decreases |xs|
  {
    if xs != [] {
      SortByStable(xs[1..], key, v);
      InsertFilter(xs[0], SortBy(xs[1..], key), key, v);
    }
  }

  /** The integers 0 .. n-1 in order: the indices of a list of length n. */
  function Range(n: nat): (r: seq<nat>)
    ensures |r| == n && forall i :: 0 <= i < n ==> r[i] == i
  {
    if n == 0 then [] else Range(n - 1) + [n - 1]
  }

  predicate Distinct<T(==)>(xs: seq<T>) {
    forall i, j :: 0 <= i < j < |xs| ==> xs[i] != xs[j]
  }

  lemma {:induction false} MultisetCount<T>(xs: seq<T>, i: nat, j: nat)
    requires i < j < |xs| && xs[i] == xs[j]
    ensures multiset(xs)[xs[i]] >= 2
  {
    var a, b, c := xs[..i], xs[i + 1..j], xs[j + 1..];
    assert xs == a + [xs[i]] + b + [xs[j]] + c;
  }

  lemma {:induction false} RangeCount(n: nat, x: nat)
    ensures multiset(Range(n))[x] == if x < n then 1 else 0
  {
    if n > 0 {
      RangeCount(n - 1, x);
    }
  }

  /** A rearrangement of the indices 0 .. n-1 lists each index exactly once. */
  lemma {:induction false} PermutationOfRange(p: seq<nat>, n: nat)
    requires multiset(p) == multiset(Range(n))
    ensures |p| == n && Distinct(p)
    ensures forall i :: 0 <= i < |p| ==> p[i] < n
    ensures forall x :: 0 <= x < n ==> x in p
  {
    assert |p| == |multiset(p)| == n;
    forall i, j | 0 <= i < j < |p| ensures p[i] != p[j] {
      if p[i] == p[j] {
        MultisetCount(p, i, j);
        RangeCount(n, p[i]);
        assert false;
      }
    }
    forall i | 0 <= i < |p| ensures p[i] < n {
      assert p[i] in multiset(p);
      RangeCount(n, p[i]);
    }
    forall x | 0 <= x < n ensures x in p {
      RangeCount(n, x);
      assert x in multiset(p);
    }
  }

  predicate Increasing(r: seq<int>) {
    forall i, j :: 0 <= i < j < |r| ==> r[i] < r[j]
  }

  /** `x` put into its place in an increasing list, unless it is there already. */
  function InsertKey(x: int, r: seq<int>): (q: seq<int>)
    requires Increasing(r)
    ensures Increasing(q)
    ensures forall y :: y in q <==> y == x || y in r
  {
    if r == [] then [x]
    else if x < r[0] then [x] + r
    else if x == r[0] then r
    else
      var rest := InsertKey(x, r[1..]);
      assert forall y :: y in r <==> y == r[0] || y in r[1..];
      forall k | 0 <= k < |rest| ensures r[0] < rest[k] {
        assert rest[k] in rest;
        if rest[k] != x {
          var m :| 0 <= m < |r[1..]| && r[1..][m] == rest[k];
          assert r[m + 1] == rest[k];
        }
      }
      [r[0]] + rest
  }

  /** Each value of `xs` once, in ascending order. */
  function SortedKeys(xs: seq<int>): (r: seq<int>)
    ensures Increasing(r)
    ensures forall y :: y in r <==> y in xs
  {
    if xs == [] then []
    else
      var init := xs[..|xs| - 1];
      assert forall y :: y in xs <==> y == xs[|xs| - 1] || y in init;
      InsertKey(xs[|xs| - 1], SortedKeys(init))
  }

  /** An increasing list holds as many values as it is long. */
  lemma {:induction false} IncreasingCard(r: seq<int>)
    requires Increasing(r)
    ensures |set x | x in r| == |r|
  {
    if r != [] {
      IncreasingCard(r[1..]);
      assert (set x | x in r) == {r[0]} + (set x | x in r[1..]);
      assert r[0] !in (set x | x in r[1..]);
    }
  }


  // ---------------------------------------------------------------- positions in a sorted list

  /** The first place of `x` in `s`. */
  function PosOf<T(==)>(s: seq<T>, x: T): (p: nat)
    requires x in s
    ensures p < |s| && s[p] == x
  {
    if s[0] == x then 0 else 1 + PosOf(s[1..], x)
  }

  lemma {:induction false} DistinctPos<T>(s: seq<T>, k: nat)
    requires Distinct(s) && k < |s|
    ensures PosOf(s, s[k]) == k
  {
  }

  lemma {:induction false} DistinctCount<T>(xs: seq<T>, x: T)
    requires Distinct(xs)
    ensures multiset(xs)[x] <= 1
  {
    if xs != [] {
      DistinctCount(xs[1..], x);
      assert xs == [xs[0]] + xs[1..];
      if xs[0] == x {
        assert x !in xs[1..];
      }
    }
  }

  /** Sorting a list without repetitions gives a list without repetitions holding the same elements. */
  lemma {:induction false} SortedDistinct<T>(xs: seq<T>, key: T -> int)
    requires Distinct(xs)
    ensures Distinct(SortBy(xs, key))
    ensures forall x :: x in SortBy(xs, key) <==> x in xs
  {
    var s := SortBy(xs, key);
    forall a, b | 0 <= a < b < |s| ensures s[a] != s[b] {
      if s[a] == s[b] {
        MultisetCount(s, a, b);
        DistinctCount(xs, s[a]);
        assert false;
      }
    }
    forall x ensures x in s <==> x in xs {
      assert x in s <==> x in multiset(s);
      assert x in xs <==> x in multiset(xs);
    }
  }

  /** In a sorted list, a smaller key comes first. */
  lemma {:induction false} SortedPosOrder<T>(s: seq<T>, key: T -> int, x: T, y: T)
    requires SortedBy(s, key) && x in s && y in s && key(x) < key(y)
    ensures PosOf(s, x) < PosOf(s, y)
  {
  }

  /** The element right after the one at `i` lies between it and any later one in key, and is neither. */
  lemma {:induction false} SortedGap<T>(s: seq<T>, key: T -> int, i: nat, j: nat)
    requires SortedBy(s, key) && Distinct(s) && i + 1 < j < |s|
    ensures key(s[i]) <= key(s[i + 1]) <= key(s[j]) && s[i + 1] != s[i] && s[i + 1] != s[j] && s[i + 1] in s
  {
  }

  /** `y` comes after `x` in `xs`. */
  predicate Before<T(==)>(xs: seq<T>, x: T, y: T) {
    exists a, b :: 0 <= a < b < |xs| && xs[a] == x && xs[b] == y
  }

  lemma {:induction false} BeforeCons<T>(h: T, t: seq<T>, x: T, y: T)
    ensures Before([h] + t, x, y) <==> (h == x && y in t) || Before(t, x, y)
  {
    var xs := [h] + t;
    if Before(xs, x, y) {
      var a, b :| 0 <= a < b < |xs| && xs[a] == x && xs[b] == y;
      assert xs[b] == t[b - 1];
      if a > 0 {
        assert t[a - 1] == x;
      }
    }
    if h == x && y in t {
      var b :| 0 <= b < |t| && t[b] == y;
      assert xs[0] == x && xs[b + 1] == y;
    }
    if Before(t, x, y) {
      var a, b :| 0 <= a < b < |t| && t[a] == x && t[b] == y;
      assert xs[a + 1] == x && xs[b + 1] == y;
    }
  }

  lemma {:induction false} KeyFilterIn<T>(xs: seq<T>, key: T -> int, v: int, y: T)
    requires key(y) == v
    ensures y in KeyFilter(xs, key, v) <==> y in xs
  {
    if xs != [] {
      KeyFilterIn(xs[1..], key, v, y);
      assert xs == [xs[0]] + xs[1..];
    }
  }

  /** Two elements with the key `v` are in the same order in `xs` and among its elements with key `v`. */
  lemma {:induction false} KeyFilterBefore<T>(xs: seq<T>, key: T -> int, v: int, x: T, y: T)
    requires key(x) == v && key(y) == v
    ensures Before(KeyFilter(xs, key, v), x, y) <==> Before(xs, x, y)
  {
    if xs != [] {
      var h, t := xs[0], xs[1..];
      assert xs == [h] + t;
      KeyFilterBefore(t, key, v, x, y);
      KeyFilterIn(t, key, v, y);
      BeforeCons(h, t, x, y);
      if key(h) == v {
        assert KeyFilter(xs, key, v) == [h] + KeyFilter(t, key, v);
        BeforeCons(h, KeyFilter(t, key, v), x, y);
      } else {
        assert KeyFilter(xs, key, v) == KeyFilter(t, key, v);
      }
    }
  }

  lemma {:induction false} DistinctBefore<T>(s: seq<T>, x: T, y: T)
    requires Distinct(s) && x in s && y in s
    ensures Before(s, x, y) <==> PosOf(s, x) < PosOf(s, y)
  {
    if Before(s, x, y) {
      var a, b :| 0 <= a < b < |s| && s[a] == x && s[b] == y;
      DistinctPos(s, a);
      DistinctPos(s, b);
    }
  }

  /** Stability, by position: two elements with equal keys keep their order through the sort. */
  lemma {:induction false} SortedTies<T>(xs: seq<T>, key: T -> int, x: T, y: T)
    requires Distinct(xs) && Before(xs, x, y) && key(x) == key(y)
    ensures x in SortBy(xs, key) && y in SortBy(xs, key)
    ensures PosOf(SortBy(xs, key), x) < PosOf(SortBy(xs, key), y)
  {
    var s, v := SortBy(xs, key), key(x);
    SortedDistinct(xs, key);
    KeyFilterBefore(xs, key, v, x, y);
    SortByStable(xs, key, v);
    KeyFilterBefore(s, key, v, x, y);
    DistinctBefore(s, x, y);
  }

  /** Two sorted arrangements of the same elements agree when no two elements share a key. */
  lemma {:induction false} SortedUnique<T>(a: seq<T>, b: seq<T>, key: T -> int)
    requires multiset(a) == multiset(b) && SortedBy(a, key) && SortedBy(b, key)
    requires forall x, y :: x in a && y in a && key(x) == key(y) ==> x == y
    ensures a == b
    decreases |a|
  {
    assert |a| == |multiset(a)| == |b|;
    if a != [] {
      SortedHead(a, b, key);
      var ta, tb := a[1..], b[1..];
      TailMultiset(a);
      TailMultiset(b);
      SortedTail(a, key);
      SortedTail(b, key);
      SortedUnique(ta, tb, key);
      assert a == [a[0]] + ta && b == [b[0]] + tb;
    }
  }

  lemma {:induction false} TailMultiset<T>(a: seq<T>)
    requires a != []
    ensures multiset(a[1..]) == multiset(a) - multiset{a[0]}
    ensures forall x :: x in a[1..] ==> x in a
  {
    assert a == [a[0]] + a[1..];
  }

  lemma {:induction false} SortedTail<T>(a: seq<T>, key: T -> int)
    requires a != [] && SortedBy(a, key)
    ensures SortedBy(a[1..], key)
  {
  }

  lemma {:induction false} SortedHead<T>(a: seq<T>, b: seq<T>, key: T -> int)
    requires a != [] && multiset(a) == multiset(b) && SortedBy(a, key) && SortedBy(b, key)
    requires forall x, y :: x in a && y in a && key(x) == key(y) ==> x == y
    ensures |b| > 0 && a[0] == b[0]
  {
    assert a[0] in multiset(b) && b[0] in multiset(a);
    var i :| 0 <= i < |b| && b[i] == a[0];
    var j :| 0 <= j < |a| && a[j] == b[0];
    assert key(a[0]) <= key(a[j]);
    assert key(b[0]) <= key(b[i]);
  }

  // ---------------------------------------------------------------- maximum

  /** `xs.reduce((m, x) => Math.max(m, x || 0), 0)`: the largest value, or 0 when none is larger. */
  function MaxOrZero(xs: seq<int>): (m: int)
    ensures m >= 0 && forall j :: 0 <= j < |xs| ==> xs[j] <= m
    ensures m == 0 || m in xs
  {
    if xs == [] then 0
    else
      var n := |xs| - 1;
      var m := MaxOrZero(xs[..n]);
      assert forall y :: y in xs[..n] ==> y in xs;
      if xs[n] > m then xs[n] else m
  }
}
