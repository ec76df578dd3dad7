/** Generic sequence operations the stores are built from: `Array.filter`,
    `filter(..).length`, `reduce` into a sum, `Array.find` and the stable
    `Array.sort` with a descending numeric comparator. */
module Seqs {
  import opened Base

  /** `r` keeps some of the elements of `s`, in the order they have in `s`. */
  ghost predicate IsSubsequence<T>(r: seq<T>, s: seq<T>)
    decreases |s|
  {
    if |r| == 0 then true
    else if |s| == 0 then false
    else if r[0] == s[0] then IsSubsequence(r[1..], s[1..])
    else IsSubsequence(r, s[1..])
  }

  /** `Array.prototype.filter`: the elements satisfying `p`, in order. */
  function Filter<T(!new)>(s: seq<T>, p: T -> bool): (r: seq<T>)
    ensures |r| <= |s|
    ensures forall i :: 0 <= i < |r| ==> p(r[i])
    ensures forall x :: x in r <==> x in s && p(x)
    ensures forall x :: multiset(r)[x] == if p(x) then multiset(s)[x] else 0
    ensures IsSubsequence(r, s)
  {
    if |s| == 0 then []
    else
      assert s == [s[0]] + s[1..];
      if p(s[0]) then [s[0]] + Filter(s[1..], p) else Filter(s[1..], p)
  }

  /** `s.filter(p).length`. */
  function Count<T(!new)>(s: seq<T>, p: T -> bool): nat {
    |Filter(s, p)|
  }

  /** The sum of `f` over the elements of `s` (a `reduce` with `+`). */
  function Sum<T>(s: seq<T>, f: T -> nat): nat {
    if |s| == 0 then 0 else f(s[0]) + Sum(s[1..], f)
  }

  /** Index of the first element satisfying `p` (`Array.prototype.findIndex`). */
  function FindIndex<T>(s: seq<T>, p: T -> bool): (r: Option<nat>)
    ensures r.Some? ==> r.value < |s| && p(s[r.value])
    ensures r.Some? ==> forall j :: 0 <= j < r.value ==> !p(s[j])
    ensures r.None? <==> forall j :: 0 <= j < |s| ==> !p(s[j])
  {
    if |s| == 0 then None
    else if p(s[0]) then Some(0)
    else
      match FindIndex(s[1..], p)
      case None => None
      case Some(i) => Some(i + 1)
  }

  /** `Array.prototype.find`: the first element satisfying `p`, if any. */
  function Find<T(!new)>(s: seq<T>, p: T -> bool): (r: Option<T>)
    ensures r.None? <==> forall x :: x in s ==> !p(x)
    ensures r.Some? ==> exists i :: 0 <= i < |s| && s[i] == r.value && p(s[i]) &&
                                    forall j :: 0 <= j < i ==> !p(s[j])
  {
    match FindIndex(s, p)
    case None => None
    case Some(i) => Some(s[i])
  }

  /** `s` is ordered by `key`, largest first. */
  ghost predicate SortedDesc<T>(s: seq<T>, key: T -> int) {
    forall i, j :: 0 <= i < j < |s| ==> key(s[i]) >= key(s[j])
  }

  /** Puts `x` in front of the first element whose key is not larger than its own. */
  function InsertDesc<T(!new)>(x: T, s: seq<T>, key: T -> int): (r: seq<T>)
    requires SortedDesc(s, key)
    ensures SortedDesc(r, key)
    ensures multiset(r) == multiset(s) + multiset{x}
  {
    if |s| == 0 || key(x) >= key(s[0]) then [x] + s
    else
      var rest := InsertDesc(x, s[1..], key);
      assert s == [s[0]] + s[1..];
      HeadDominates(s[0], rest, s[1..], x, key);
      [s[0]] + rest
  }

  lemma HeadDominates<T>(h: T, rest: seq<T>, tail: seq<T>, x: T, key: T -> int)
    requires SortedDesc(rest, key) && SortedDesc([h] + tail, key)
    requires multiset(rest) == multiset(tail) + multiset{x}
    requires key(h) >= key(x)
    ensures SortedDesc([h] + rest, key)
  {
    forall j | 0 <= j < |rest| ensures key(h) >= key(rest[j]) {
      assert multiset(rest)[rest[j]] > 0;
      if rest[j] != x {
        assert multiset(tail)[rest[j]] > 0;
        assert rest[j] in tail;
        var k :| 0 <= k < |tail| && tail[k] == rest[j];
        assert ([h] + tail)[k + 1] == tail[k] && ([h] + tail)[0] == h;
        assert key(([h] + tail)[0]) >= key(([h] + tail)[k + 1]);
      }
    }
  }

  /** `s.sort((a, b) => key(b) - key(a))`: a stable sort, largest key first. */
  function SortDesc<T(!new)>(s: seq<T>, key: T -> int): (r: seq<T>)
    ensures SortedDesc(r, key)
    ensures multiset(r) == multiset(s)
    ensures |r| == |s|
  {
    if |s| == 0 then []
    else
      assert s == [s[0]] + s[1..];
      InsertDesc(s[0], SortDesc(s[1..], key), key)
  }

  /** The elements satisfying `p`, sorted by `key` from largest to smallest. */
  function SortedFilter<T(!new)>(s: seq<T>, p: T -> bool, key: T -> int): (r: seq<T>)
    ensures forall x :: x in r <==> x in s && p(x)
    ensures forall x :: multiset(r)[x] == if p(x) then multiset(s)[x] else 0
    ensures forall i, j :: 0 <= i < j < |r| ==> key(r[i]) >= key(r[j])
  {
    var f := Filter(s, p);
    var r := SortDesc(f, key);
    assert forall x :: x in r <==> x in f by {
      forall x ensures x in r <==> x in f {
        assert x in r <==> multiset(r)[x] > 0;
        assert x in f <==> multiset(f)[x] > 0;
      }
    }
    r
  }

  /** The elements whose key is `k`. */
  function KeyIs<T>(key: T -> int, k: int): T -> bool {
    x => key(x) == k
  }

  lemma {:induction false} InsertDescKeepsTies<T(!new)>(x: T, s: seq<T>, key: T -> int, k: int)
    requires SortedDesc(s, key)
    ensures Filter(InsertDesc(x, s, key), KeyIs(key, k)) ==
            if key(x) == k then [x] + Filter(s, KeyIs(key, k)) else Filter(s, KeyIs(key, k))
  {
    if |s| == 0 || key(x) >= key(s[0]) {
      assert InsertDesc(x, s, key)[1..] == s;
      if key(x) == k {
        // Everything of key k in `s` comes after `x` already.
      }
    } else {
      assert key(s[0]) > key(x);
      var rest := InsertDesc(x, s[1..], key);
      assert InsertDesc(x, s, key) == [s[0]] + rest;
      assert ([s[0]] + rest)[1..] == rest;
      InsertDescKeepsTies(x, s[1..], key, k);
      if key(x) == k {
        assert key(s[0]) != k;
      }
    }
  }

  /** The sort is stable: the elements sharing a key keep their original order. */
  lemma {:induction false} SortDescIsStable<T(!new)>(s: seq<T>, key: T -> int, k: int)
    ensures Filter(SortDesc(s, key), KeyIs(key, k)) == Filter(s, KeyIs(key, k))
  {
    if |s| > 0 {
      SortDescIsStable(s[1..], key, k);
      InsertDescKeepsTies(s[0], SortDesc(s[1..], key), key, k);
    }
  }

  /** Sorting the filtered elements keeps elements with equal keys in their original order. */
  lemma SortedFilterStable<T(!new)>(s: seq<T>, p: T -> bool, key: T -> int, k: int, pk: T -> bool)
    requires forall x :: pk(x) == (p(x) && key(x) == k)
    ensures Filter(SortedFilter(s, p, key), KeyIs(key, k)) == Filter(s, pk)
  {
    SortDescIsStable(Filter(s, p), key, k);
    FilterFilter(s, p, KeyIs(key, k), pk);
  }

  lemma {:induction false} SumInsertDesc<T(!new)>(x: T, s: seq<T>, key: T -> int, f: T -> nat)
    requires SortedDesc(s, key)
    ensures Sum(InsertDesc(x, s, key), f) == f(x) + Sum(s, f)
  {
    if |s| == 0 || key(x) >= key(s[0]) {
      assert InsertDesc(x, s, key)[1..] == s;
    } else {
      var rest := InsertDesc(x, s[1..], key);
      assert ([s[0]] + rest)[1..] == rest;
      SumInsertDesc(x, s[1..], key, f);
    }
  }

  /** Sorting does not change a sum over the elements. */
  lemma {:induction false} SumSortDesc<T(!new)>(s: seq<T>, key: T -> int, f: T -> nat)
    ensures Sum(SortDesc(s, key), f) == Sum(s, f)
  {
    if |s| > 0 {
      SumSortDesc(s[1..], key, f);
      SumInsertDesc(s[0], SortDesc(s[1..], key), key, f);
    }
  }

  /** Sorting does not change how many elements satisfy a predicate. */
  lemma CountSortDesc<T(!new)>(s: seq<T>, key: T -> int, p: T -> bool)
    ensures Count(SortDesc(s, key), p) == Count(s, p)
  {
    var r := SortDesc(s, key);
    var a, b := Filter(r, p), Filter(s, p);
    assert multiset(a) == multiset(b) by {
      forall x ensures multiset(a)[x] == multiset(b)[x] {
        assert multiset(r)[x] == multiset(s)[x];
      }
    }
    assert |a| == |multiset(a)| == |multiset(b)| == |b|;
  }

  /** Filtering twice is filtering once by the conjunction. */
  lemma {:induction false} FilterFilter<T(!new)>(s: seq<T>, p: T -> bool, q: T -> bool, pq: T -> bool)
    requires forall x :: pq(x) == (p(x) && q(x))
    ensures Filter(Filter(s, p), q) == Filter(s, pq)
  {
    if |s| > 0 {
      FilterFilter(s[1..], p, q, pq);
    }
  }

  /** Counting after filtering is counting by the conjunction. */
  lemma CountFilter<T(!new)>(s: seq<T>, p: T -> bool, q: T -> bool, pq: T -> bool)
    requires forall x :: pq(x) == (p(x) && q(x))
    ensures Count(Filter(s, p), q) == Count(s, pq)
  {
    FilterFilter(s, p, q, pq);
  }

  /** A sum over the elements that satisfy `p` is the sum of `f` masked by `p`. */
  lemma {:induction false} SumFilter<T(!new)>(s: seq<T>, p: T -> bool, f: T -> nat, g: T -> nat)
    requires forall x :: g(x) == if p(x) then f(x) else 0
    ensures Sum(Filter(s, p), f) == Sum(s, g)
  {
    if |s| > 0 {
      SumFilter(s[1..], p, f, g);
      if p(s[0]) {
        assert ([s[0]] + Filter(s[1..], p))[1..] == Filter(s[1..], p);
      }
    }
  }

  /** A sum of zeros. */
  lemma {:induction false} SumZero<T>(s: seq<T>, f: T -> nat)
    requires forall i :: 0 <= i < |s| ==> f(s[i]) == 0
    ensures Sum(s, f) == 0
  {
    if |s| > 0 {
      SumZero(s[1..], f);
    }
  }

  /** Filtering distributes over concatenation. */
  lemma {:induction false} FilterConcat<T(!new)>(a: seq<T>, b: seq<T>, p: T -> bool)
    ensures Filter(a + b, p) == Filter(a, p) + Filter(b, p)
  {
    if |a| > 0 {
      assert (a + b)[0] == a[0];
      assert (a + b)[1..] == a[1..] + b;
      FilterConcat(a[1..], b, p);
      if p(a[0]) {
        calc {
          Filter(a + b, p);
          [a[0]] + Filter(a[1..] + b, p);
          [a[0]] + (Filter(a[1..], p) + Filter(b, p));
          ([a[0]] + Filter(a[1..], p)) + Filter(b, p);
        }
      } else {
        assert Filter(a + b, p) == Filter(a[1..] + b, p);
        assert Filter(a, p) == Filter(a[1..], p);
      }
    } else {
      assert a + b == b;
    }
  }

  /** Sums of two sequences agree when their elements contribute the same, position by position. */
  lemma {:induction false} SumPointwise<T, U>(a: seq<T>, f: T -> nat, b: seq<U>, g: U -> nat)
    requires |a| == |b|
    requires forall i :: 0 <= i < |a| ==> f(a[i]) == g(b[i])
    ensures Sum(a, f) == Sum(b, g)
  {
    if |a| > 0 {
      SumPointwise(a[1..], f, b[1..], g);
    }
  }

  /** A sum of sums. */
  lemma {:induction false} SumPlus<T>(s: seq<T>, f: T -> nat, g: T -> nat, h: T -> nat)
    requires forall x :: h(x) == f(x) + g(x)
    ensures Sum(s, h) == Sum(s, f) + Sum(s, g)
  {
    if |s| > 0 {
      SumPlus(s[1..], f, g, h);
    }
  }

  /** Summing 1 for each element satisfying `p` counts them. */
  lemma {:induction false} SumIndicator<T(!new)>(s: seq<T>, p: T -> bool, f: T -> nat)
    requires forall x :: f(x) == if p(x) then 1 else 0
    ensures Sum(s, f) == Count(s, p)
  {
    if |s| > 0 {
      SumIndicator(s[1..], p, f);
    }
  }

  /** Counts of two sequences agree when their elements agree on the predicates, position by position. */
  lemma {:induction false} CountPointwise<T(!new), U(!new)>(a: seq<T>, p: T -> bool, b: seq<U>, q: U -> bool)
    requires |a| == |b|
    requires forall i :: 0 <= i < |a| ==> p(a[i]) == q(b[i])
    ensures Count(a, p) == Count(b, q)
  {
    if |a| > 0 {
      CountPointwise(a[1..], p, b[1..], q);
    }
  }

  /** An update that leaves the elements satisfying `p` alone, and does not move
      any element into or out of `p`, does not change `Filter(_, p)`. */
  lemma {:induction false} FilterPointwise<T(!new)>(a: seq<T>, b: seq<T>, p: T -> bool)
    requires |a| == |b|
    requires forall i :: 0 <= i < |a| ==> p(a[i]) == p(b[i])
    requires forall i :: 0 <= i < |a| && p(a[i]) ==> a[i] == b[i]
    ensures Filter(a, p) == Filter(b, p)
  {
    if |a| > 0 {
      FilterPointwise(a[1..], b[1..], p);
    }
  }

  /** Filtering keeps a sequence whole when every element passes. */
  lemma {:induction false} FilterAll<T(!new)>(s: seq<T>, p: T -> bool)
    requires forall i :: 0 <= i < |s| ==> p(s[i])
    ensures Filter(s, p) == s
  {
    if |s| > 0 {
      FilterAll(s[1..], p);
    }
  }

  function IsNot<T(==)>(y: T): T -> bool {
    (x: T) => x != y
  }

  /** `s.filter(x => x !== y)`: every occurrence of `y` removed, the rest in order. */
  function Without<T(!new,==)>(s: seq<T>, y: T): (r: seq<T>)
    ensures y !in r
    ensures forall x :: x != y ==> multiset(r)[x] == multiset(s)[x]
    ensures IsSubsequence(r, s)
  {
    Filter(s, IsNot(y))
  }

  /** Removing `y` takes away exactly its occurrences. */
  lemma {:induction false} WithoutLength<T(!new)>(s: seq<T>, y: T)
    ensures |Without(s, y)| == |s| - multiset(s)[y]
  {
    if |s| > 0 {
      WithoutLength(s[1..], y);
      assert s == [s[0]] + s[1..];
      assert multiset(s)[y] == multiset(s[1..])[y] + (if s[0] == y then 1 else 0);
      if s[0] == y {
        assert Without(s, y) == Without(s[1..], y);
      } else {
        assert Without(s, y) == [s[0]] + Without(s[1..], y);
      }
    }
  }

  /** Removing an element just appended to a sequence without it gives the sequence back. */
  lemma WithoutAppended<T(!new)>(s: seq<T>, y: T)
    requires y !in s
    ensures Without(s + [y], y) == s
  {
    FilterConcat(s, [y], IsNot(y));
    FilterAll(s, IsNot(y));
  }

  /** No element occurs twice. */
  ghost predicate Distinct<T(!new)>(s: seq<T>) {
    forall x :: multiset(s)[x] <= 1
  }

  /** A sum is positive exactly when some term is. */
  lemma {:induction false} SumPositive<T>(s: seq<T>, f: T -> nat)
    ensures Sum(s, f) > 0 <==> exists i :: 0 <= i < |s| && f(s[i]) > 0
  {
    if |s| > 0 {
      SumPositive(s[1..], f);
      if f(s[0]) == 0 && Sum(s[1..], f) > 0 {
        var i :| 0 <= i < |s[1..]| && f(s[1..][i]) > 0;
        assert f(s[i + 1]) > 0;
      }
      if exists i :: 0 <= i < |s| && f(s[i]) > 0 {
        var i :| 0 <= i < |s| && f(s[i]) > 0;
        if i > 0 {
          assert f(s[1..][i - 1]) > 0;
        }
      }
    }
  }

  /** A count is positive exactly when some element satisfies the predicate. */
  lemma CountPositive<T(!new)>(s: seq<T>, p: T -> bool)
    ensures Count(s, p) > 0 <==> exists i :: 0 <= i < |s| && p(s[i])
  {
    if exists i :: 0 <= i < |s| && p(s[i]) {
      var i :| 0 <= i < |s| && p(s[i]);
      assert s[i] in Filter(s, p);
    }
    if Count(s, p) > 0 {
      assert Filter(s, p)[0] in s;
    }
  }
}
