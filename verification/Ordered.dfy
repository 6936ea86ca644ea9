/** Insertion-ordered collections: filtering, removal, stable sorting and weighted sums. */
module Ordered {

  ghost predicate Distinct<T(!new)>(xs: seq<T>) {
    forall i, j :: 0 <= i < j < |xs| ==> xs[i] != xs[j]
  }

  function Filter<T(!new)>(xs: seq<T>, keep: T -> bool): (ys: seq<T>)
    ensures forall x :: x in ys <==> x in xs && keep(x)
    ensures |ys| <= |xs|
  {
    if xs == [] then []
    else
      assert xs == [xs[0]] + xs[1..];
      (if keep(xs[0]) then [xs[0]] else []) + Filter(xs[1..], keep)
  }

  lemma {:induction false} FilterDistinct<T(!new)>(xs: seq<T>, keep: T -> bool)
    requires Distinct(xs)
    ensures Distinct(Filter(xs, keep))
  {
    if xs != [] {
      FilterDistinct(xs[1..], keep);
      assert xs == [xs[0]] + xs[1..];
      assert xs[0] !in xs[1..];
    }
  }

  function Without<T(==, !new)>(xs: seq<T>, x: T): (ys: seq<T>)
    ensures forall y :: y in ys <==> y in xs && y != x
  {
    if xs == [] then []
    else
      assert xs == [xs[0]] + xs[1..];
      (if xs[0] == x then [] else [xs[0]]) + Without(xs[1..], x)
  }

  lemma {:induction false} WithoutDistinct<T(!new)>(xs: seq<T>, x: T)
    requires Distinct(xs)
    ensures Distinct(Without(xs, x))
  {
    if xs != [] {
      WithoutDistinct(xs[1..], x);
      assert xs == [xs[0]] + xs[1..];
      assert xs[0] !in xs[1..];
    }
  }

  lemma {:induction false} WithoutAbsent<T(!new)>(xs: seq<T>, x: T)
    requires x !in xs
    ensures Without(xs, x) == xs
  {
    if xs != [] {
      assert xs == [xs[0]] + xs[1..];
      WithoutAbsent(xs[1..], x);
    }
  }

  /** Removing one member of a distinct list takes one from every count that included it. */
  lemma {:induction false} FilterWithout<T(!new)>(xs: seq<T>, x: T, keep: T -> bool)
    requires Distinct(xs)
    ensures |Filter(Without(xs, x), keep)| == |Filter(xs, keep)| - if x in xs && keep(x) then 1 else 0
  {
    if xs != [] {
      assert xs == [xs[0]] + xs[1..];
      FilterWithout(xs[1..], x, keep);
      if xs[0] == x {
        assert x !in xs[1..];
        WithoutAbsent(xs[1..], x);
        assert Without(xs, x) == xs[1..];
      } else {
        assert Without(xs, x) == [xs[0]] + Without(xs[1..], x);
        assert Without(xs, x)[1..] == Without(xs[1..], x);
      }
    }
  }

  lemma {:induction false} FilterAppend<T(!new)>(xs: seq<T>, x: T, keep: T -> bool)
    ensures Filter(xs + [x], keep) == Filter(xs, keep) + if keep(x) then [x] else []
  {
    if xs != [] {
      FilterAppend(xs[1..], x, keep);
      assert (xs + [x])[1..] == xs[1..] + [x];
    }
  }

  lemma {:induction false} FilterSame<T(!new)>(xs: seq<T>, keep: T -> bool, keep': T -> bool)
    requires forall x :: x in xs ==> keep(x) == keep'(x)
    ensures Filter(xs, keep) == Filter(xs, keep')
  {
    if xs != [] {
      assert xs == [xs[0]] + xs[1..];
      FilterSame(xs[1..], keep, keep');
    }
  }

  // ---------------------------------------------------------------------
  // Stable sorting by an integer key, smallest first

  function Insert<T(!new)>(x: T, xs: seq<T>, key: T -> int): (ys: seq<T>)
    ensures forall y :: y in ys <==> y == x || y in xs
    ensures |ys| == |xs| + 1
  {
    if xs == [] || key(x) < key(xs[0]) then [x] + xs
    else
      assert xs == [xs[0]] + xs[1..];
      [xs[0]] + Insert(x, xs[1..], key)
  }

  /** Later elements go behind earlier ones of the same key. */
  function SortBy<T(!new)>(xs: seq<T>, key: T -> int): (ys: seq<T>)
    ensures forall y :: y in ys <==> y in xs
    ensures |ys| == |xs|
  {
    if xs == [] then []
    else
      assert xs == xs[..|xs| - 1] + [xs[|xs| - 1]];
      Insert(xs[|xs| - 1], SortBy(xs[..|xs| - 1], key), key)
  }

  ghost predicate Sorted<T(!new)>(xs: seq<T>, key: T -> int) {
    forall i, j :: 0 <= i < j < |xs| ==> key(xs[i]) <= key(xs[j])
  }

  lemma {:induction false} InsertSorted<T(!new)>(x: T, xs: seq<T>, key: T -> int)
    requires Sorted(xs, key)
    ensures Sorted(Insert(x, xs, key), key)
  {
    if xs != [] && key(x) >= key(xs[0]) {
      InsertSorted(x, xs[1..], key);
      var rest := Insert(x, xs[1..], key);
      forall y | y in rest
        ensures key(xs[0]) <= key(y)
      {
        if y != x {
          var i :| 0 <= i < |xs[1..]| && xs[1..][i] == y;
          assert xs[i + 1] == y;
        }
      }
    }
  }

  lemma {:induction false} InsertDistinct<T(!new)>(x: T, xs: seq<T>, key: T -> int)
    requires Distinct(xs) && x !in xs
    ensures Distinct(Insert(x, xs, key))
  {
    if xs != [] && key(x) >= key(xs[0]) {
      assert xs == [xs[0]] + xs[1..];
      assert xs[0] !in xs[1..];
      InsertDistinct(x, xs[1..], key);
    }
  }

  /** Sorting a distinct list yields a sorted, distinct list. */
  lemma {:induction false} SortByIsSorted<T(!new)>(xs: seq<T>, key: T -> int)
    ensures Sorted(SortBy(xs, key), key)
    ensures Distinct(xs) ==> Distinct(SortBy(xs, key))
  {
    if xs != [] {
      var front, x := xs[..|xs| - 1], xs[|xs| - 1];
      SortByIsSorted(front, key);
      InsertSorted(x, SortBy(front, key), key);
      if Distinct(xs) {
        assert x !in front;
        InsertDistinct(x, SortBy(front, key), key);
      }
    }
  }

  /** What a sorted list holds behind a prefix is no smaller than what the prefix holds. */
  lemma PrefixSmaller<T(!new)>(xs: seq<T>, key: T -> int, n: nat, x: T, y: T)
    requires Sorted(xs, key) && n <= |xs| && x in xs[..n] && y in xs && y !in xs[..n]
    ensures key(x) <= key(y)
  {
    var i :| 0 <= i < n && xs[..n][i] == x;
    var j :| 0 <= j < |xs| && xs[j] == y;
    assert xs[i] == x;
    forall k | 0 <= k < n
      ensures xs[k] in xs[..n]
    {
      assert xs[..n][k] == xs[k];
    }
  }

  /** Positions of a sorted list follow the keys. */
  lemma SortedPosition<T(!new)>(xs: seq<T>, key: T -> int, i: nat, y: T) returns (j: nat)
    requires Sorted(xs, key) && i < |xs| && y in xs && key(y) > key(xs[i])
    ensures i < j < |xs| && xs[j] == y
  {
    j :| 0 <= j < |xs| && xs[j] == y;
  }

  // ---------------------------------------------------------------------
  // Weighted sums

  ghost function SumBy<T(!new)>(xs: seq<T>, w: T -> nat): nat {
    if xs == [] then 0 else w(xs[0]) + SumBy(xs[1..], w)
  }

  lemma {:induction false} SumAppend<T(!new)>(xs: seq<T>, x: T, w: T -> nat)
    ensures SumBy(xs + [x], w) == SumBy(xs, w) + w(x)
  {
    if xs != [] {
      SumAppend(xs[1..], x, w);
      assert (xs + [x])[1..] == xs[1..] + [x];
    } else {
      assert ([x])[1..] == [];
    }
  }

  lemma {:induction false} SumInsert<T(!new)>(x: T, xs: seq<T>, key: T -> int, w: T -> nat)
    ensures SumBy(Insert(x, xs, key), w) == w(x) + SumBy(xs, w)
  {
    if xs == [] || key(x) < key(xs[0]) {
      assert ([x] + xs)[1..] == xs;
    } else {
      SumInsert(x, xs[1..], key, w);
      assert Insert(x, xs, key)[1..] == Insert(x, xs[1..], key);
    }
  }

  lemma {:induction false} SumSort<T(!new)>(xs: seq<T>, key: T -> int, w: T -> nat)
    ensures SumBy(SortBy(xs, key), w) == SumBy(xs, w)
  {
    if xs != [] {
      var front, x := xs[..|xs| - 1], xs[|xs| - 1];
      SumSort(front, key, w);
      SumInsert(x, SortBy(front, key), key, w);
      SumAppend(front, x, w);
      assert xs == front + [x];
    }
  }

  lemma {:induction false} SumFilter<T(!new)>(xs: seq<T>, keep: T -> bool, w: T -> nat)
    requires forall x :: x in xs && !keep(x) ==> w(x) == 0
    ensures SumBy(Filter(xs, keep), w) == SumBy(xs, w)
  {
    if xs != [] {
      assert xs == [xs[0]] + xs[1..];
      SumFilter(xs[1..], keep, w);
      if keep(xs[0]) {
        assert Filter(xs, keep)[1..] == Filter(xs[1..], keep);
      } else {
        assert Filter(xs, keep) == Filter(xs[1..], keep);
      }
    }
  }

  lemma {:induction false} SumLess<T(!new)>(xs: seq<T>, w: T -> nat, w': T -> nat)
    requires forall x :: x in xs ==> w'(x) <= w(x)
    ensures SumBy(xs, w') <= SumBy(xs, w)
  {
    if xs != [] {
      assert xs == [xs[0]] + xs[1..];
      SumLess(xs[1..], w, w');
    }
  }

  /** Lowering weights lowers what the others weigh beside any one member. */
  lemma {:induction false} SumRest<T(!new)>(xs: seq<T>, w: T -> nat, w': T -> nat, k: T)
    requires k in xs && forall x :: x in xs ==> w'(x) <= w(x)
    ensures SumBy(xs, w') - w'(k) <= SumBy(xs, w) - w(k)
    ensures w(k) <= SumBy(xs, w)
  {
    assert xs == [xs[0]] + xs[1..];
    if xs[0] == k {
      SumLess(xs[1..], w, w');
    } else {
      SumRest(xs[1..], w, w', k);
    }
  }

  lemma {:induction false} SumWithout<T(!new)>(xs: seq<T>, x: T, w: T -> nat, w': T -> nat)
    requires forall y :: y in xs && y != x ==> w'(y) == w(y)
    requires w'(x) == 0
    ensures SumBy(Without(xs, x), w) == SumBy(xs, w')
  {
    if xs != [] {
      assert xs == [xs[0]] + xs[1..];
      SumWithout(xs[1..], x, w, w');
      if xs[0] != x {
        assert Without(xs, x)[1..] == Without(xs[1..], x);
      } else {
        assert Without(xs, x) == Without(xs[1..], x);
      }
    }
  }

  lemma {:induction false} SumSame<T(!new)>(xs: seq<T>, w: T -> nat, w': T -> nat)
    requires forall x :: x in xs ==> w'(x) == w(x)
    ensures SumBy(xs, w') == SumBy(xs, w)
  {
    SumLess(xs, w, w');
    SumLess(xs, w', w);
  }
}
