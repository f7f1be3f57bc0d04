/**
  Generic sequence operations behind Swift's `firstIndex(of:)`, `filter`,
  `reduce(0, +)` and `sorted(by:)`, with the facts the model needs about them.
*/
module Seqs {
  import opened Wrappers

  /** `firstIndex(of:)`: the position of the first occurrence of `x`, if any. */
  function FirstIndex<T(==)>(s: seq<T>, x: T): (r: Option<nat>)
    ensures r.None? <==> x !in s
    ensures r.Some? ==> r.value < |s| && s[r.value] == x && forall j :: 0 <= j < r.value ==> s[j] != x
  {
    if |s| == 0 then None
    else if s[0] == x then Some(0)
    else
      match FirstIndex(s[1..], x)
      case None => None
      case Some(i) => Some(i + 1)
  }

  /** In a sequence without repeats, the first occurrence of each element is its only position. */
  lemma FirstIndexDistinct<T>(s: seq<T>, i: nat)
    requires i < |s|
    requires forall a, b :: 0 <= a < b < |s| ==> s[a] != s[b]
    ensures FirstIndex(s, s[i]) == Some(i)
  {
  }

  /** `filter`: the elements satisfying `p`, in their original order. */
  function Keep<T(!new)>(s: seq<T>, p: T -> bool): (r: seq<T>)
    ensures |r| <= |s|
    ensures forall i :: 0 <= i < |r| ==> p(r[i])
    ensures forall x :: x in r <==> x in s && p(x)
  {
    if |s| == 0 then []
    else Keep(s[..|s| - 1], p) + (if p(s[|s| - 1]) then [s[|s| - 1]] else [])
  }

  /** Filtering keeps every occurrence of a kept element and drops every other. */
  lemma {:induction false} KeepCount<T(!new)>(s: seq<T>, p: T -> bool, x: T)
    ensures multiset(Keep(s, p))[x] == if p(x) then multiset(s)[x] else 0
  {
    if |s| > 0 {
      KeepCount(s[..|s| - 1], p, x);
      assert s == s[..|s| - 1] + [s[|s| - 1]];
    }
  }

  /** Filtering by `p` and by its negation splits a sequence without losing or duplicating anything. */
  lemma KeepSplit<T(!new)>(s: seq<T>, p: T -> bool, q: T -> bool)
    requires forall x :: q(x) == !p(x)
    ensures multiset(Keep(s, p)) + multiset(Keep(s, q)) == multiset(s)
  {
    forall x
      ensures (multiset(Keep(s, p)) + multiset(Keep(s, q)))[x] == multiset(s)[x]
    {
      KeepCount(s, p, x);
      KeepCount(s, q, x);
    }
  }

  lemma {:induction false} KeepAppend<T(!new)>(a: seq<T>, b: seq<T>, p: T -> bool)
    ensures Keep(a + b, p) == Keep(a, p) + Keep(b, p)
    decreases |b|
  {
    if |b| > 0 {
      assert (a + b)[..|a + b| - 1] == a + b[..|b| - 1];
      assert (a + b)[|a + b| - 1] == b[|b| - 1];
      KeepAppend(a, b[..|b| - 1], p);
    } else {
      assert a + b == a;
    }
  }

  /** `reduce(0) { $0 + f($1) }`, folded from the left. */
  function Sum<T>(s: seq<T>, f: T -> real): real {
    if |s| == 0 then 0.0 else Sum(s[..|s| - 1], f) + f(s[|s| - 1])
  }

  lemma {:induction false} SumAppend<T>(a: seq<T>, b: seq<T>, f: T -> real)
    ensures Sum(a + b, f) == Sum(a, f) + Sum(b, f)
    decreases |b|
  {
    if |b| > 0 {
      assert (a + b)[..|a + b| - 1] == a + b[..|b| - 1];
      assert (a + b)[|a + b| - 1] == b[|b| - 1];
      SumAppend(a, b[..|b| - 1], f);
    } else {
      assert a + b == a;
    }
  }

  /** The sum is the first term plus the sum of the rest. */
  lemma SumSplitFirst<T>(s: seq<T>, f: T -> real)
    requires |s| > 0
    ensures Sum(s, f) == f(s[0]) + Sum(s[1..], f)
  {
    assert s == [s[0]] + s[1..];
    SumAppend([s[0]], s[1..], f);
    assert [s[0]][..0] == [];
  }

  /** A filtered sum plus the sum of the rest is the whole sum. */
  lemma {:induction false} SumSplit<T(!new)>(s: seq<T>, f: T -> real, p: T -> bool, q: T -> bool)
    requires forall x :: q(x) == !p(x)
    ensures Sum(s, f) == Sum(Keep(s, p), f) + Sum(Keep(s, q), f)
  {
    if |s| > 0 {
      var init, last := s[..|s| - 1], s[|s| - 1];
      SumSplit(init, f, p, q);
      if p(last) {
        assert Keep(s, p) == Keep(init, p) + [last] && Keep(s, q) == Keep(init, q);
        SumAppend(Keep(init, p), [last], f);
      } else {
        assert Keep(s, q) == Keep(init, q) + [last] && Keep(s, p) == Keep(init, p);
        SumAppend(Keep(init, q), [last], f);
      }
      assert Sum(s, f) == Sum(init, f) + f(last);
    }
  }

  /** Summing over the kept elements is summing over all, the others counting 0. */
  lemma {:induction false} SumKeep<T(!new)>(s: seq<T>, f: T -> real, p: T -> bool, g: T -> real)
    requires forall x :: g(x) == if p(x) then f(x) else 0.0
    ensures Sum(Keep(s, p), f) == Sum(s, g)
  {
    if |s| > 0 {
      var init, last := s[..|s| - 1], s[|s| - 1];
      SumKeep(init, f, p, g);
      if p(last) {
        assert Keep(s, p) == Keep(init, p) + [last];
        SumAppend(Keep(init, p), [last], f);
      } else {
        assert Keep(s, p) == Keep(init, p);
      }
    }
  }

  /** Summing pointwise smaller terms gives a smaller sum. */
  lemma {:induction false} SumMonotone<T>(s: seq<T>, f: T -> real, g: T -> real)
    requires forall i :: 0 <= i < |s| ==> f(s[i]) <= g(s[i])
    ensures Sum(s, f) <= Sum(s, g)
  {
    if |s| > 0 {
      SumMonotone(s[..|s| - 1], f, g);
    }
  }

  /** A constant factor in every term comes out of the sum. */
  lemma {:induction false} SumScale<T>(s: seq<T>, f: T -> real, g: T -> real, c: real)
    requires forall i :: 0 <= i < |s| ==> g(s[i]) == c * f(s[i])
    ensures Sum(s, g) == c * Sum(s, f)
  {
    if |s| > 0 {
      SumScale(s[..|s| - 1], f, g, c);
    }
  }

  /** Sums of pointwise equal terms are equal. */
  lemma {:induction false} SumCongruent<T>(s: seq<T>, f: T -> real, g: T -> real)
    requires forall i :: 0 <= i < |s| ==> f(s[i]) == g(s[i])
    ensures Sum(s, f) == Sum(s, g)
  {
    if |s| > 0 {
      SumCongruent(s[..|s| - 1], f, g);
    }
  }

  /** A sum of non-negative terms is non-negative. */
  lemma {:induction false} SumNonNegative<T>(s: seq<T>, f: T -> real)
    requires forall i :: 0 <= i < |s| ==> f(s[i]) >= 0.0
    ensures Sum(s, f) >= 0.0
  {
    if |s| > 0 {
      SumNonNegative(s[..|s| - 1], f);
    }
  }

  ghost predicate Irreflexive<T(!new)>(less: (T, T) -> bool) {
    forall a :: !less(a, a)
  }

  ghost predicate Transitive<T(!new)>(less: (T, T) -> bool) {
    forall a, b, c :: less(a, b) && less(b, c) ==> less(a, c)
  }

  /** Nothing later in the sequence sorts strictly before anything earlier. */
  ghost predicate SortedBy<T>(s: seq<T>, less: (T, T) -> bool) {
    forall i, j :: 0 <= i < j < |s| ==> !less(s[j], s[i])
  }

  /** Places `x` before the first element it sorts strictly before. */
  function Insert<T>(x: T, s: seq<T>, less: (T, T) -> bool): (r: seq<T>)
    ensures multiset(r) == multiset(s) + multiset{x}
  {
    if |s| == 0 then [x]
    else if less(x, s[0]) then [x] + s
    else
      assert s == [s[0]] + s[1..];
      [s[0]] + Insert(x, s[1..], less)
  }

  /** A sorted sequence stays sorted under a new head that nothing in it sorts before. */
  lemma ConsSorted<T>(h: T, s: seq<T>, less: (T, T) -> bool)
    requires SortedBy(s, less)
    requires forall k :: 0 <= k < |s| ==> !less(s[k], h)
    ensures SortedBy([h] + s, less)
  {
    var r := [h] + s;
    forall i, j | 0 <= i < j < |r|
      ensures !less(r[j], r[i])
    {
      if i > 0 {
        assert r[i] == s[i - 1];
      }
      assert r[j] == s[j - 1];
    }
  }

  /** Whatever `x` is inserted into the tail, the head need not move if `x` does not sort before it. */
  lemma InsertKeepsHead<T>(x: T, s: seq<T>, less: (T, T) -> bool)
    requires SortedBy(s, less) && |s| > 0 && !less(x, s[0])
    ensures forall k :: 0 <= k < |Insert(x, s[1..], less)| ==> !less(Insert(x, s[1..], less)[k], s[0])
  {
    var rest := Insert(x, s[1..], less);
    forall k | 0 <= k < |rest|
      ensures !less(rest[k], s[0])
    {
      assert rest[k] in multiset(rest);
      if rest[k] != x {
        assert rest[k] in multiset(s[1..]);
        var m :| 0 <= m < |s[1..]| && s[1..][m] == rest[k];
        assert s[m + 1] == rest[k];
      }
    }
  }

  lemma {:induction false} InsertSorted<T(!new)>(x: T, s: seq<T>, less: (T, T) -> bool)
    requires Irreflexive(less) && Transitive(less)
    requires SortedBy(s, less)
    ensures SortedBy(Insert(x, s, less), less)
  {
    if |s| == 0 {
    } else if less(x, s[0]) {
      assert forall j :: 0 <= j < |s| ==> !less(s[j], x);
      ConsSorted(x, s, less);
    } else {
      InsertSorted(x, s[1..], less);
      InsertKeepsHead(x, s, less);
      ConsSorted(s[0], Insert(x, s[1..], less), less);
    }
  }

  /** `sorted(by: less)`: a permutation of the input in which no element sorts before an earlier one. */
  function InsertionSort<T(!new)>(s: seq<T>, less: (T, T) -> bool): (r: seq<T>)
    requires Irreflexive(less) && Transitive(less)
    ensures SortedBy(r, less)
    ensures multiset(r) == multiset(s)
  {
    if |s| == 0 then []
    else
      assert s == [s[0]] + s[1..];
      InsertSorted(s[0], InsertionSort(s[1..], less), less);
      Insert(s[0], InsertionSort(s[1..], less), less)
  }
}
