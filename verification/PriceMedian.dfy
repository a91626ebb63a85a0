/**
 * The aggregated price: the median of the prices the sources reported, over the reals.
 */
module PriceMedian {
  import opened Prelude
  import Sorting

  predicate Sorted(s: seq<real>) {
    forall i, j :: 0 <= i < j < |s| ==> s[i] <= s[j]
  }

  /** The value in the middle of sorted prices, the mean of two for an even count. */
  function Middle(sorted: seq<real>): real
    requires |sorted| > 0
  {
    var mid := |sorted| / 2;
    if |sorted| % 2 == 0 then (sorted[mid - 1] + sorted[mid]) / 2.0 else sorted[mid]
  }

  predicate AtMost(a: real, b: real) {
    a <= b
  }

  function SortPrices(values: seq<real>): seq<real> {
    Sorting.Sort(AtMost, values)
  }

  function Median(values: seq<real>): Option<real> {
    var sorted := SortPrices(values);
    if sorted == [] then None else Some(Middle(sorted))
  }

  lemma {:induction false} SortPricesSorts(values: seq<real>)
    ensures Sorted(SortPrices(values)) && multiset(SortPrices(values)) == multiset(values)
    ensures |SortPrices(values)| == |values|
  {
    var sorted := SortPrices(values);
    Sorting.SortSorts(AtMost, values);
    assert forall i, j :: 0 <= i < j < |sorted| ==> AtMost(sorted[i], sorted[j]);
    assert |multiset(sorted)| == |multiset(values)|;
  }

  /** Two sorted arrangements of the same prices are the same sequence. */
  lemma {:induction false} SortedIsUnique(a: seq<real>, b: seq<real>)
    requires Sorted(a) && Sorted(b) && multiset(a) == multiset(b)
    ensures a == b
    decreases |a|
  {
    assert |multiset(a)| == |multiset(b)|;
    if a != [] {
      assert a[0] in multiset(b) && b[0] in multiset(a);
      assert a[0] == b[0];
      Sorting.HeadAndTail(a);
      Sorting.HeadAndTail(b);
      assert multiset(a[1..]) == multiset(a) - multiset{a[0]} == multiset(b[1..]);
      SortedIsUnique(a[1..], b[1..]);
    }
  }

  /** The median does not depend on the order in which the sources answered. */
  lemma {:induction false} MedianIgnoresOrder(a: seq<real>, b: seq<real>)
    requires multiset(a) == multiset(b)
    ensures Median(a) == Median(b)
  {
    SortPricesSorts(a);
    SortPricesSorts(b);
    SortedIsUnique(SortPrices(a), SortPrices(b));
  }

  /** In any sorted arrangement of the prices it is the middle one, or the mean of the two in the middle. */
  lemma {:induction false} MedianIsTheMiddle(values: seq<real>, sorted: seq<real>)
    requires values != [] && multiset(sorted) == multiset(values)
    requires forall i, j :: 0 <= i < j < |sorted| ==> sorted[i] <= sorted[j]
    ensures |sorted| == |values|
    ensures Median(values) ==
      Some(if |values| % 2 == 1 then sorted[|values| / 2] else (sorted[|values| / 2 - 1] + sorted[|values| / 2]) / 2.0)
  {
    SortPricesSorts(values);
    SortedIsUnique(sorted, SortPrices(values));
  }

  // ---------------------------------------------------------------- robustness

  predicate Inside(lo: real, hi: real, x: real) {
    lo <= x <= hi
  }

  /** How many prices lie in an interval. */
  ghost function InsideCount(lo: real, hi: real, s: seq<real>): nat {
    if s == [] then 0 else InsideCount(lo, hi, s[..|s| - 1]) + (if Inside(lo, hi, s[|s| - 1]) then 1 else 0)
  }

  lemma {:induction false} InsideConcat(lo: real, hi: real, a: seq<real>, b: seq<real>)
    ensures InsideCount(lo, hi, a + b) == InsideCount(lo, hi, a) + InsideCount(lo, hi, b)
  {
    if b == [] {
      assert a + b == a;
    } else {
      InsideConcat(lo, hi, a, b[..|b| - 1]);
      assert (a + b)[..|a + b| - 1] == a + b[..|b| - 1];
    }
  }

  /** The count depends only on the prices. */
  lemma {:induction false} InsideIgnoresOrder(lo: real, hi: real, a: seq<real>, b: seq<real>)
    requires multiset(a) == multiset(b)
    ensures InsideCount(lo, hi, a) == InsideCount(lo, hi, b)
    decreases |a|
  {
    assert |multiset(a)| == |multiset(b)|;
    if a != [] {
      var x := a[|a| - 1];
      assert a == a[..|a| - 1] + [x];
      assert x in multiset(b);
      var k :| 0 <= k < |b| && b[k] == x;
      var b' := b[..k] + b[k + 1..];
      assert b == b[..k] + [x] + b[k + 1..];
      assert multiset(b') == multiset(b) - multiset{x};
      InsideIgnoresOrder(lo, hi, a[..|a| - 1], b');
      InsideConcat(lo, hi, b[..k], b[k + 1..]);
      InsideConcat(lo, hi, b[..k], [x]);
      InsideConcat(lo, hi, b[..k] + [x], b[k + 1..]);
      InsideConcat(lo, hi, [], [x]);
    }
  }

  /** A stretch with nothing inside counts nothing, and no stretch counts more than its length. */
  lemma {:induction false} InsideBound(lo: real, hi: real, s: seq<real>)
    ensures InsideCount(lo, hi, s) <= |s|
    ensures (forall i :: 0 <= i < |s| ==> !Inside(lo, hi, s[i])) ==> InsideCount(lo, hi, s) == 0
  {
    if s != [] {
      InsideBound(lo, hi, s[..|s| - 1]);
    }
  }

  /** A position of sorted prices with at most half of them on either side lies in any interval holding a majority. */
  lemma {:induction false} CentralPriceInside(lo: real, hi: real, s: seq<real>, p: nat)
    requires Sorted(s) && p < |s| && 2 * InsideCount(lo, hi, s) > |s| && 2 * p <= |s| && 2 * (|s| - 1 - p) <= |s|
    ensures Inside(lo, hi, s[p])
  {
    var left, right := s[..p], s[p + 1..];
    assert s == left + [s[p]] + right;
    InsideConcat(lo, hi, left + [s[p]], right);
    InsideConcat(lo, hi, left, [s[p]]);
    InsideConcat(lo, hi, [], [s[p]]);
    InsideBound(lo, hi, left);
    InsideBound(lo, hi, right);
  }

  /** When more than half of the reported prices lie in an interval, so does the median, for odd and even counts. */
  lemma {:induction false} MajorityBoundsTheMedian(lo: real, hi: real, values: seq<real>)
    requires 2 * InsideCount(lo, hi, values) > |values|
    ensures Median(values).Some? && Inside(lo, hi, Median(values).value)
  {
    var s := SortPrices(values);
    SortPricesSorts(values);
    InsideIgnoresOrder(lo, hi, values, s);
    InsideBound(lo, hi, values);
    CentralPriceInside(lo, hi, s, |s| / 2);
    if |s| % 2 == 0 {
      CentralPriceInside(lo, hi, s, |s| / 2 - 1);
    }
  }

  /** Half of the prices is not enough: two sources, one of them in the interval. */
  lemma HalfIsNotEnough()
    ensures 2 * InsideCount(1.0, 1.0, [1.0, 9.0]) == 2 && Median([1.0, 9.0]) == Some(5.0)
  {
    var v := [1.0, 9.0];
    assert v[..1] == [1.0] && [1.0][..0] == [];
    assert InsideCount(1.0, 1.0, [1.0]) == 1;
    assert SortPrices([9.0]) == [9.0];
    assert SortPrices(v) == [1.0, 9.0];
  }

  /** No reported price, and only that, gives no median. */
  lemma {:induction false} NoMedianIffNoPrice(values: seq<real>)
    ensures Median(values) == None <==> values == []
  {
    SortPricesSorts(values);
  }
}
