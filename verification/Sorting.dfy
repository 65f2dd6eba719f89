/**
  Python's string order, and `sorted` over a set: the distinct members in increasing order.
  */
module Sorting {

  predicate StringLess(a: string, b: string) {
    if b == "" then false
    else if a == "" then true
    else if a[0] != b[0] then a[0] < b[0]
    else StringLess(a[1..], b[1..])
  }

  lemma {:induction false} StringLessTotal(a: string, b: string)
    ensures !(StringLess(a, b) && StringLess(b, a))
    ensures a == b || StringLess(a, b) || StringLess(b, a)
  {
    if a != "" && b != "" && a[0] == b[0] {
      StringLessTotal(a[1..], b[1..]);
      if a[1..] == b[1..] {
        assert a == [a[0]] + a[1..] == b;
      }
    }
  }

  lemma {:induction false} StringLessTransitive(a: string, b: string, c: string)
    requires StringLess(a, b) && StringLess(b, c)
    ensures StringLess(a, c)
  {
    if a != "" && a[0] == b[0] == c[0] {
      StringLessTransitive(a[1..], b[1..], c[1..]);
    }
  }

  /** The first difference decides, and a text comes before its extensions. */
  ghost predicate AlphabeticallyBefore(a: string, b: string) {
    exists k :: FirstDifference(a, b, k)
  }

  ghost predicate FirstDifference(a: string, b: string, k: int) {
    && 0 <= k <= |a| && k < |b| && a[..k] == b[..k]
    && (k == |a| || a[k] < b[k])
  }

  lemma {:induction false} StringLessIff(a: string, b: string)
    ensures StringLess(a, b) <==> AlphabeticallyBefore(a, b)
  {
    if b == "" {
    } else if a == "" {
      assert FirstDifference(a, b, 0);
    } else if a[0] != b[0] {
      if a[0] < b[0] {
        assert FirstDifference(a, b, 0);
      }
      forall k | FirstDifference(a, b, k)
        ensures k == 0
      {
        if k > 0 {
          SameFirst(a, b, k);
        }
      }
    } else {
      StringLessIff(a[1..], b[1..]);
      DifferenceInTails(a, b);
    }
  }

  lemma SameFirst(a: string, b: string, k: nat)
    requires 0 < k <= |a| && k <= |b| && a[..k] == b[..k]
    ensures a[0] == b[0]
  {
    assert a[..k][0] == b[..k][0];
  }

  lemma DifferenceInTails(a: string, b: string)
    requires a != "" && b != "" && a[0] == b[0]
    ensures AlphabeticallyBefore(a, b) <==> AlphabeticallyBefore(a[1..], b[1..])
  {
    if k :| FirstDifference(a, b, k) {
      assert a[..k][1..] == a[1..][..k - 1] && b[..k][1..] == b[1..][..k - 1];
      assert FirstDifference(a[1..], b[1..], k - 1);
    }
    if k :| FirstDifference(a[1..], b[1..], k) {
      assert a[..k + 1] == [a[0]] + a[1..][..k] && b[..k + 1] == [b[0]] + b[1..][..k];
      assert FirstDifference(a, b, k + 1);
    }
  }

  /** Pairs compare by their first halves, then by their second. */
  predicate PairLess(a: (string, string), b: (string, string)) {
    StringLess(a.0, b.0) || (a.0 == b.0 && StringLess(a.1, b.1))
  }

  /** A strict total order. */
  ghost predicate IsOrder<T(!new)>(less: (T, T) -> bool) {
    && (forall a, b :: !(less(a, b) && less(b, a)))
    && (forall a, b :: a == b || less(a, b) || less(b, a))
    && (forall a, b, c :: less(a, b) && less(b, c) ==> less(a, c))
  }

  lemma StringsAreOrdered()
    ensures IsOrder(StringLess)
  {
    forall a, b
      ensures !(StringLess(a, b) && StringLess(b, a)) && (a == b || StringLess(a, b) || StringLess(b, a))
    {
      StringLessTotal(a, b);
    }
    forall a, b, c | StringLess(a, b) && StringLess(b, c)
      ensures StringLess(a, c)
    {
      StringLessTransitive(a, b, c);
    }
  }

  lemma PairsAreOrdered()
    ensures IsOrder(PairLess)
  {
    StringsAreOrdered();
  }

  // ----- sorted(set)

  predicate StrictlySorted<T>(xs: seq<T>, less: (T, T) -> bool) {
    forall i, j :: 0 <= i < j < |xs| ==> less(xs[i], xs[j])
  }

  function Insert<T(==, !new)>(x: T, sorted: seq<T>, less: (T, T) -> bool): (r: seq<T>)
    ensures forall y :: y in r <==> y == x || y in sorted
  {
    if sorted == [] then [x]
    else if x == sorted[0] then sorted
    else if less(x, sorted[0]) then [x] + sorted
    else
      assert sorted == [sorted[0]] + sorted[1..];
      [sorted[0]] + Insert(x, sorted[1..], less)
  }

  lemma {:induction false} InsertSorted<T(!new)>(x: T, sorted: seq<T>, less: (T, T) -> bool)
    requires IsOrder(less) && StrictlySorted(sorted, less)
    ensures StrictlySorted(Insert(x, sorted, less), less)
  {
    if sorted != [] && x != sorted[0] && !less(x, sorted[0]) {
      InsertSorted(x, sorted[1..], less);
      var tail := Insert(x, sorted[1..], less);
      forall j | 0 <= j < |tail|
        ensures less(sorted[0], tail[j])
      {
        assert tail[j] in tail;
      }
    }
  }

  function SortedSet<T(==, !new)>(xs: seq<T>, less: (T, T) -> bool): (r: seq<T>)
    ensures forall x :: x in r <==> x in xs
  {
    if xs == [] then []
    else
      var n := |xs| - 1;
      assert xs == xs[..n] + [xs[n]];
      Insert(xs[n], SortedSet(xs[..n], less), less)
  }

  lemma {:induction false} SortedSetSorted<T(!new)>(xs: seq<T>, less: (T, T) -> bool)
    requires IsOrder(less)
    ensures StrictlySorted(SortedSet(xs, less), less)
  {
    if xs != [] {
      var n := |xs| - 1;
      SortedSetSorted(xs[..n], less);
      InsertSorted(xs[n], SortedSet(xs[..n], less), less);
    }
  }

  /** Strictly sorted, so every member is there once. */
  lemma SortedIsDistinct<T(!new)>(xs: seq<T>, less: (T, T) -> bool)
    requires IsOrder(less) && StrictlySorted(xs, less)
    ensures forall i, j :: 0 <= i < j < |xs| ==> xs[i] != xs[j]
  {
    forall i, j | 0 <= i < j < |xs|
      ensures xs[i] != xs[j]
    {
      assert less(xs[i], xs[j]);
    }
  }
}
