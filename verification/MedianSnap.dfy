/** Snapping transmit times to the median arrival, in
  * Source/Pvt/GPSOpenClMeasurementAssembler.cpp, over the reals.
  */
module MedianSnap {
  import opened Numbers

  /** One C/A code period, in seconds. */
  const PERIOD: real := 0.001
  const GUARD_BAND: real := 0.25

  // ----- the median

  predicate Sorted(s: seq<real>) { forall i, j | 0 <= i <= j < |s| :: s[i] <= s[j] }

  ghost predicate Permutes(s: seq<real>, t: seq<real>) { |s| == |t| && multiset(s) == multiset(t) }

  /** The element at size / 2 of the sorted arrivals, whichever sort is used. */
  ghost predicate IsMedian(arrivals: seq<real>, m: real) {
    exists s :: IsSorting(arrivals, s) && |s| > 0 && m == s[|s| / 2]
  }

  ghost predicate IsSorting(arrivals: seq<real>, s: seq<real>) { Permutes(arrivals, s) && Sorted(s) }

  /** Inserts v into a sorted sequence. */
  method Insert(s: seq<real>, v: real) returns (r: seq<real>)
    requires Sorted(s)
    ensures Sorted(r) && |r| == |s| + 1 && multiset(r) == multiset(s) + multiset{v}
  {
    var i := |s|;
    while i > 0 && s[i - 1] > v
      invariant 0 <= i <= |s| && forall k | i <= k < |s| :: v < s[k]
    {
      i := i - 1;
    }
    r := s[..i] + [v] + s[i..];
    InsertedHolds(s, i, v);
    InsertedSorted(s, i, v);
  }

  lemma InsertedHolds(s: seq<real>, i: nat, v: real)
    requires i <= |s|
    ensures multiset(s[..i] + [v] + s[i..]) == multiset(s) + multiset{v}
  {
    assert s == s[..i] + s[i..];
  }

  lemma InsertedSorted(s: seq<real>, i: nat, v: real)
    requires i <= |s| && Sorted(s) && (forall k | i <= k < |s| :: v < s[k]) && (i > 0 ==> s[i - 1] <= v)
    ensures Sorted(s[..i] + [v] + s[i..])
  {
    var r := s[..i] + [v] + s[i..];
    forall j, k | 0 <= j <= k < |r| ensures r[j] <= r[k] {
      assert j < i ==> s[j] <= s[i - 1];
    }
  }

  /** The sort the median is taken from; any sort gives the same sequence. */
  method Sort(a: seq<real>) returns (s: seq<real>)
    ensures IsSorting(a, s)
  {
    s := [];
    for i := 0 to |a|
      invariant Sorted(s) && |s| == i && multiset(s) == multiset(a[..i])
    {
      assert a[..i + 1] == a[..i] + [a[i]];
      s := Insert(s, a[i]);
    }
    assert a[..|a|] == a;
  }

  // ----- the correction

  /** The whole periods one arrival is moved by: at most one, and only when the offset is clearly near it. */
  function Correction(median: real, arrival: real): (n: int)
    ensures -1 <= n <= 1
  {
    var offset := (median - arrival) / PERIOD;
    var whole := Round(offset);
    if whole != 0 && Abs(whole as real) <= 1.0 && Abs(offset - whole as real) < GUARD_BAND then whole else 0
  }

  method SnapTransmitTimesToMedianArrival(transmitTimes: seq<real>, impliedArrivals: seq<real>)
    returns (snapped: seq<real>, ghost median: real)
    ensures |snapped| == |transmitTimes|
    ensures transmitTimes == [] || |transmitTimes| != |impliedArrivals| ==> snapped == transmitTimes
    ensures transmitTimes != [] && |transmitTimes| == |impliedArrivals| ==>
              IsMedian(impliedArrivals, median)
              && forall i | 0 <= i < |snapped| ::
                 snapped[i] == transmitTimes[i] + Correction(median, impliedArrivals[i]) as real * PERIOD
  {
    snapped, median := transmitTimes, 0.0;
    if transmitTimes == [] || |transmitTimes| != |impliedArrivals| {
      return;
    }
    var sortedArrivals := Sort(impliedArrivals);
    var medianArrival := sortedArrivals[|sortedArrivals| / 2];
    median := medianArrival;
    for i := 0 to |transmitTimes|
      invariant |snapped| == |transmitTimes|
      invariant forall k | 0 <= k < i ::
                snapped[k] == transmitTimes[k] + Correction(median, impliedArrivals[k]) as real * PERIOD
      invariant forall k | i <= k < |snapped| :: snapped[k] == transmitTimes[k]
    {
      var offset := (medianArrival - impliedArrivals[i]) / PERIOD;
      var whole := Round(offset);
      if whole != 0 && Abs(whole as real) <= 1.0 && Abs(offset - whole as real) < GUARD_BAND {
        snapped := snapped[i := snapped[i] + whole as real * PERIOD];
      }
    }
  }

  // ----- the median is determined, and moves with its arrivals

  lemma LastIsLargest(s: seq<real>, t: seq<real>)
    requires Sorted(s) && Permutes(s, t) && t != []
    ensures t[|t| - 1] <= s[|s| - 1]
  {
    assert t[|t| - 1] in multiset(t) && t[|t| - 1] in multiset(s);
    var i :| 0 <= i < |s| && s[i] == t[|t| - 1];
  }

  lemma ButLast(s: seq<real>)
    requires s != []
    ensures s == s[..|s| - 1] + [s[|s| - 1]]
    ensures multiset(s) == multiset(s[..|s| - 1]) + multiset{s[|s| - 1]}
  {
    assert s == s[..|s| - 1] + [s[|s| - 1]];
  }

  lemma Cancel(a: multiset<real>, b: multiset<real>, v: real)
    requires a + multiset{v} == b + multiset{v}
    ensures a == b
  {
    assert a == (a + multiset{v}) - multiset{v};
    assert b == (b + multiset{v}) - multiset{v};
  }

  lemma {:induction false} SortingIsUnique(s: seq<real>, t: seq<real>)
    requires Sorted(s) && Sorted(t) && Permutes(s, t)
    ensures s == t
  {
    if s != [] {
      var n := |s| - 1;
      assert s == s[..n] + [s[n]] && t == t[..n] + [t[n]];
      LastIsLargest(s, t);
      LastIsLargest(t, s);
      ButLast(s);
      ButLast(t);
      Cancel(multiset(s[..n]), multiset(t[..n]), s[n]);
      SortingIsUnique(s[..n], t[..n]);
    }
  }

  lemma MedianIsUnique(arrivals: seq<real>, a: real, b: real)
    requires IsMedian(arrivals, a) && IsMedian(arrivals, b)
    ensures a == b
  {
    var s :| IsSorting(arrivals, s) && |s| > 0 && a == s[|s| / 2];
    var t :| IsSorting(arrivals, t) && |t| > 0 && b == t[|t| / 2];
    SortingIsUnique(s, t);
  }

  function Shifted(s: seq<real>, c: real): (r: seq<real>)
    ensures |r| == |s| && forall i | 0 <= i < |s| :: r[i] == s[i] + c
  {
    if s == [] then [] else Shifted(s[..|s| - 1], c) + [s[|s| - 1] + c]
  }

  lemma OneMore(s: seq<real>, a: real, v: real)
    ensures multiset(s + [a])[v] == multiset(s)[v] + if v == a then 1 else 0
  {
  }

  lemma ShiftedOneMore(s: seq<real>, a: real, c: real, v: real)
    ensures multiset(Shifted(s + [a], c))[v + c] == multiset(Shifted(s, c))[v + c] + if v == a then 1 else 0
  {
    assert (s + [a])[..|s|] == s;
    assert Shifted(s + [a], c) == Shifted(s, c) + [a + c];
    OneMore(Shifted(s, c), a + c, v + c);
  }

  lemma {:induction false} ShiftedCounts(s: seq<real>, c: real, v: real)
    ensures multiset(Shifted(s, c))[v + c] == multiset(s)[v]
  {
    if s != [] {
      var n := |s| - 1;
      ShiftedCounts(s[..n], c, v);
      ShiftedOneMore(s[..n], s[n], c, v);
      OneMore(s[..n], s[n], v);
      ButLast(s);
    }
  }

  lemma SameShiftedCount(s: seq<real>, t: seq<real>, c: real, v: real, w: real)
    requires multiset(s)[v] == multiset(t)[v] && v + c == w
    ensures multiset(Shifted(s, c))[w] == multiset(Shifted(t, c))[w]
  {
    ShiftedCounts(s, c, v);
    ShiftedCounts(t, c, v);
  }

  lemma ShiftedPermutes(s: seq<real>, t: seq<real>, c: real)
    requires Permutes(s, t)
    ensures Permutes(Shifted(s, c), Shifted(t, c))
  {
    var a, b := multiset(Shifted(s, c)), multiset(Shifted(t, c));
    forall w: real ensures a[w] == b[w] {
      SameShiftedCount(s, t, c, w - c, w);
    }
    assert a == b;
  }

  /** Adding a constant to every arrival adds it to the median, and so leaves every correction alone. */
  lemma ShiftChangesNothing(arrivals: seq<real>, c: real, m: real, i: nat)
    requires IsMedian(arrivals, m) && i < |arrivals|
    ensures IsMedian(Shifted(arrivals, c), m + c)
    ensures Correction(m + c, Shifted(arrivals, c)[i]) == Correction(m, arrivals[i])
  {
    MedianShifts(arrivals, c, m);
    CorrectionShifts(m, arrivals[i], c);
  }

  lemma MedianShifts(arrivals: seq<real>, c: real, m: real)
    requires IsMedian(arrivals, m)
    ensures IsMedian(Shifted(arrivals, c), m + c)
  {
    var s :| IsSorting(arrivals, s) && |s| > 0 && m == s[|s| / 2];
    ShiftedSorting(arrivals, s, c);
  }

  lemma ShiftedSorting(arrivals: seq<real>, s: seq<real>, c: real)
    requires IsSorting(arrivals, s) && |s| > 0
    ensures IsMedian(Shifted(arrivals, c), s[|s| / 2] + c)
  {
    ShiftedPermutes(arrivals, s, c);
    var t := Shifted(s, c);
    assert Sorted(t);
    assert IsSorting(Shifted(arrivals, c), t) && t[|t| / 2] == s[|s| / 2] + c;
  }

  lemma CorrectionShifts(median: real, arrival: real, c: real)
    ensures Correction(median + c, arrival + c) == Correction(median, arrival)
  {
    assert (median + c) - (arrival + c) == median - arrival;
  }

  lemma MedianIsAnArrival(arrivals: seq<real>, m: real) returns (j: nat)
    requires IsMedian(arrivals, m)
    ensures j < |arrivals| && arrivals[j] == m
  {
    var s :| IsSorting(arrivals, s) && |s| > 0 && m == s[|s| / 2];
    assert m in multiset(s) && m in multiset(arrivals);
    j :| 0 <= j < |arrivals| && arrivals[j] == m;
  }

  // ----- what it repairs

  /** Arrival is within e of grid point k. */
  predicate NearGrid(arrival: real, origin: real, k: int, e: real) { Abs(arrival - (origin + k as real * PERIOD)) < e }

  /** An arrival one grid step off is moved back, one on the step is left alone. */
  lemma CorrectionIsStep(median: real, arrival: real, origin: real, k: int, j: int, e: real)
    requires e <= PERIOD / 8.0 && NearGrid(median, origin, k, e) && NearGrid(arrival, origin, j, e) && -1 <= k - j <= 1
    ensures Correction(median, arrival) == k - j
  {
    var offset, step := (median - arrival) / PERIOD, (k - j) as real;
    assert Abs(median - arrival - step * PERIOD) < 2.0 * e;
    assert Abs(offset - step) < 0.25;
    RoundsTo(offset, k - j);
  }

  lemma RoundsTo(x: real, n: int)
    requires Abs(x - n as real) < 0.25
    ensures Round(x) == n
  {
  }

  /** When every arrival is near a common grid and at most a step from the median, snapping brings all within 2e
    * of it. */
  lemma SnapRepairs(arrivals: seq<real>, steps: seq<int>, origin: real, e: real, m: real, i: nat)
    requires |steps| == |arrivals| && e <= PERIOD / 8.0 && IsMedian(arrivals, m) && i < |arrivals|
    requires forall j | 0 <= j < |arrivals| :: NearGrid(arrivals[j], origin, steps[j], e)
    requires forall j, k | 0 <= j < |arrivals| && 0 <= k < |arrivals| && arrivals[k] == m ::
             -1 <= steps[k] - steps[j] <= 1
    ensures Abs(arrivals[i] + Correction(m, arrivals[i]) as real * PERIOD - m) < 2.0 * e
  {
    var j := MedianIsAnArrival(arrivals, m);
    CorrectionIsStep(m, arrivals[i], origin, steps[j], steps[i], e);
    assert NearGrid(arrivals[i], origin, steps[i], e) && NearGrid(arrivals[j], origin, steps[j], e);
  }

  /** Two whole steps are never repaired. */
  lemma TwoStepsStay(median: real, arrival: real)
    requires Abs(median - arrival) >= 1.5 * PERIOD
    ensures Correction(median, arrival) == 0
  {
    var offset := (median - arrival) / PERIOD;
    assert Abs(offset) >= 1.5;
  }

  /** Moved is exactly what lies between three and five quarters of a millisecond from the median, by a millisecond
    * toward it; a quarter or more from every step, or further than a step, stays. */
  lemma MovesIff(median: real, arrival: real)
    ensures Correction(median, arrival) as real * PERIOD
         == if 0.00075 < median - arrival < 0.00125 then 0.001
            else if 0.00075 < arrival - median < 0.00125 then -0.001
            else 0.0
  {
    var offset := (median - arrival) / PERIOD;
    assert offset == 1000.0 * (median - arrival);
    if 0.75 < offset < 1.25 {
      RoundsTo(offset, 1);
    } else if -1.25 < offset < -0.75 {
      RoundsTo(offset, -1);
    }
  }
}
