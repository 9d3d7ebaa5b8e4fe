/** LightCurve (database.py:219-315): the points of a light curve in the
    order they were added, the filter, and the comparison stars with their
    weights; plus the window statistics behind `amplitude`. */
module Curves {
  import opened Records
  import Seqs

  /** Why the LightCurve constructor refuses its arguments (both are ValueErrors). */
  datatype CurveError = WeightCountMismatch | NoComparisonStars

  /** The sort key of `__iter__`: a point's Unix time. */
  function PointTime(p: Point): real { p.time }

  /** The test of `ignore_noisy`: a point is kept when its SNR reaches `snr`. */
  function SnrAtLeast(snr: real): Point -> bool
  {
    (p: Point) => p.snr >= snr
  }

  /** `zip(a, b)`: pairs of equal index, as many as the shorter input has. */
  function Zip<A, B>(a: seq<A>, b: seq<B>): (r: seq<(A, B)>)
    ensures |r| == if |a| < |b| then |a| else |b|
    ensures forall i :: 0 <= i < |r| ==> r[i] == (a[i], b[i])
  {
    if a == [] || b == [] then [] else [(a[0], b[0])] + Zip(a[1..], b[1..])
  }

  class LightCurve {
    var data: seq<Point>
    const pfilter: Passband
    const cstars: seq<int>
    const cweights: seq<real>

    /** What the constructor checks: one weight per comparison star, and at
        least one comparison star. */
    ghost predicate Valid()
    {
      |cstars| == |cweights| && cstars != []
    }

    constructor (pfilter: Passband, cstars: seq<int>, cweights: seq<real>)
      requires |cstars| == |cweights| && cstars != []
      ensures Valid() && data == []
      ensures this.pfilter == pfilter && this.cstars == cstars && this.cweights == cweights
    {
      this.data := [];
      this.pfilter := pfilter;
      this.cstars := cstars;
      this.cweights := cweights;
    }

    /** `LightCurve(pfilter, cstars, cweights)` (database.py:229-249): the
        length mismatch is reported first, then the empty list of comparison
        stars; otherwise an empty curve. */
    static method Create(pfilter: Passband, cstars: seq<int>, cweights: seq<real>)
      returns (r: Result<LightCurve, CurveError>)
      ensures |cstars| != |cweights| ==> r == Failure(WeightCountMismatch)
      ensures |cstars| == |cweights| && cstars == [] ==> r == Failure(NoComparisonStars)
      ensures |cstars| == |cweights| && cstars != [] ==>
                r.Success? && fresh(r.value) && r.value.Valid() && r.value.data == []
                && r.value.pfilter == pfilter && r.value.cstars == cstars && r.value.cweights == cweights
    {
      if |cstars| != |cweights| {
        return Failure(WeightCountMismatch);
      }
      if cstars == [] {
        return Failure(NoComparisonStars);
      }
      var curve := new LightCurve(pfilter, cstars, cweights);
      return Success(curve);
    }

    /** `add` (database.py:251-253): appends one point. */
    method Add(p: Point)
      modifies this
      ensures data == old(data) + [p]
    {
      data := data + [p];
    }

    /** `__iter__` (database.py:261-264): the points sorted by time, stably;
        the stored order is left as it is. */
    function Chronological(): (r: seq<Point>)
      reads this
      ensures multiset(r) == multiset(data)
      ensures Seqs.SortedBy(r, PointTime)
    {
      Seqs.SortBy(data, PointTime)
    }

    /** `weights` (database.py:273-277): each comparison star with its weight. */
    function Weights(): (w: seq<(int, real)>)
      requires Valid()
      ensures |w| == |cstars|
      ensures forall i :: 0 <= i < |w| ==> w[i].0 == cstars[i] && w[i].1 == cweights[i]
    {
      Zip(cstars, cweights)
    }

    /** `amplitude(npoints, median)` (database.py:279-301), as the code computes it. */
    function Amplitude(npoints: int, median: bool): (a: Option<real>)
      reads this
      ensures a.Some? <==> 0 < SliceIndex(npoints, |data|) < |data|
      ensures a.Some? ==> a.value >= 0.0
    {
      AmplitudeNonNegative(Magnitudes(data), npoints, median);
      AmplitudeOf(Magnitudes(data), npoints, median)
    }

    /** `ignore_noisy(snr)` (database.py:303-315): a new curve with the points
        whose SNR is at least `snr`, in their order, and the same filter and
        comparison stars; this curve is not changed. */
    method IgnoreNoisy(snr: real) returns (r: LightCurve)
      requires Valid()
      ensures fresh(r) && r.Valid()
      ensures r.data == Seqs.Filter(data, SnrAtLeast(snr))
      ensures r.pfilter == pfilter && r.cstars == cstars && r.cweights == cweights
    {
      r := new LightCurve(pfilter, cstars, cweights);
      r.data := Seqs.Filter(data, SnrAtLeast(snr));
    }
  }

  /** The magnitudes of the points, in their order. */
  function Magnitudes(points: seq<Point>): (mags: seq<real>)
    ensures |mags| == |points|
    ensures forall i :: 0 <= i < |points| ==> mags[i] == points[i].mag
  {
    if points == [] then [] else [points[0].mag] + Magnitudes(points[1..])
  }

  /** The stop of a Python slice `[:k]` (and start of `[k:]`) on a list of
      length `n`: a negative `k` counts from the end, and both are clamped. */
  function SliceIndex(k: int, n: nat): (c: nat)
    ensures c <= n
    ensures 0 <= k <= n ==> c == k
    ensures k > n ==> c == n
    ensures k < 0 ==> c == if n + k < 0 then 0 else n + k
  {
    if k < 0 then (if n + k < 0 then 0 else n + k)
    else if k > n then n
    else k
  }

  function Sum(w: seq<real>): real
  {
    if w == [] then 0.0 else w[0] + Sum(w[1..])
  }

  /** `numpy.mean` of a nonempty window. */
  function Mean(w: seq<real>): real
    requires w != []
  {
    Sum(w) / (|w| as real)
  }

  /** `numpy.median` of a nonempty window: the middle value of the sorted
      window, or the mean of the two middle values when its length is even. */
  function Median(w: seq<real>): real
    requires w != []
  {
    Middle(Seqs.SortBy(w, Seqs.Value))
  }

  /** The middle value, or the mean of the two middle values. */
  function Middle(s: seq<real>): real
    requires s != []
  {
    var m := |s| / 2;
    if |s| % 2 == 1 then s[m] else (s[m - 1] + s[m]) / 2.0
  }

  function Centre(w: seq<real>, median: bool): real
    requires w != []
  {
    if median then Median(w) else Mean(w)
  }

  /** The amplitude as database.py:299-301 computes it: the magnitudes are
      sorted, and the statistic of all but the lowest `npoints` minus that of
      the lowest `npoints`. A window that is empty makes NumPy return NaN,
      which is `None` here. */
  function AmplitudeOf(mags: seq<real>, npoints: int, median: bool): (r: Option<real>)
    ensures r.Some? <==> 0 < SliceIndex(npoints, |mags|) < |mags|
  {
    SplitAt(Seqs.SortBy(mags, Seqs.Value), npoints, median)
  }

  /** The statistic of `sorted[k:]` minus that of `sorted[:k]`. */
  function SplitAt(sorted: seq<real>, npoints: int, median: bool): Option<real>
  {
    var k := SliceIndex(npoints, |sorted|);
    if k == 0 || k == |sorted| then None
    else Some(Centre(sorted[k..], median) - Centre(sorted[..k], median))
  }

  /** The peak-to-trough amplitude the documentation describes: the statistic
      of the highest `npoints` magnitudes minus that of the lowest `npoints`. */
  function AmplitudeIntended(mags: seq<real>, npoints: int, median: bool): (r: Option<real>)
    ensures r.Some? <==> 0 < SliceIndex(npoints, |mags|)
  {
    HighLow(Seqs.SortBy(mags, Seqs.Value), npoints, median)
  }

  /** The statistic of the last `k` values minus that of the first `k`. */
  function HighLow(sorted: seq<real>, npoints: int, median: bool): Option<real>
  {
    var k := SliceIndex(npoints, |sorted|);
    if k == 0 then None
    else Some(Centre(sorted[|sorted| - k..], median) - Centre(sorted[..k], median))
  }

  /** A statistic of a sorted window lies between its first and last value. */
  lemma CentreBounds(w: seq<real>, median: bool)
    requires w != [] && Seqs.SortedBy(w, Seqs.Value)
    ensures w[0] <= Centre(w, median) <= w[|w| - 1]
  {
    if median {
      MedianBounds(w);
    } else {
      SumBounds(w, w[0], w[|w| - 1]);
      DivBounds(Sum(w), |w| as real, w[0], w[|w| - 1]);
    }
  }

  lemma MedianBounds(w: seq<real>)
    requires w != [] && Seqs.SortedBy(w, Seqs.Value)
    ensures w[0] <= Median(w) <= w[|w| - 1]
  {
    Seqs.SortBySorted(w, Seqs.Value);
    MiddleBounds(w);
  }

  lemma MiddleBounds(s: seq<real>)
    requires s != [] && Seqs.SortedBy(s, Seqs.Value)
    ensures s[0] <= Middle(s) <= s[|s| - 1]
  {
    var m := |s| / 2;
    var last := |s| - 1;
    assert Seqs.Value(s[0]) <= Seqs.Value(s[m]) || m == 0;
    assert Seqs.Value(s[m]) <= Seqs.Value(s[last]) || m == last;
    if |s| % 2 == 0 {
      assert Seqs.Value(s[0]) <= Seqs.Value(s[m - 1]) || m - 1 == 0;
      assert Seqs.Value(s[m - 1]) <= Seqs.Value(s[last]);
    }
  }

  lemma {:induction false} SumBounds(w: seq<real>, lo: real, hi: real)
    requires forall i :: 0 <= i < |w| ==> lo <= w[i] <= hi
    ensures (|w| as real) * lo <= Sum(w) <= (|w| as real) * hi
  {
    if w != [] {
      SumBounds(w[1..], lo, hi);
    }
  }

  lemma DivBounds(s: real, n: real, lo: real, hi: real)
    requires n > 0.0 && n * lo <= s <= n * hi
    ensures lo <= s / n <= hi
  {
  }

  lemma {:induction false} SumMonotone(a: seq<real>, b: seq<real>)
    requires |a| == |b|
    requires forall i :: 0 <= i < |a| ==> a[i] <= b[i]
    ensures Sum(a) <= Sum(b)
  {
    if a != [] {
      SumMonotone(a[1..], b[1..]);
    }
  }

  /** A slice of a sorted sequence is sorted. */
  lemma SliceSorted(s: seq<real>, i: nat, j: nat)
    requires i <= j <= |s| && Seqs.SortedBy(s, Seqs.Value)
    ensures Seqs.SortedBy(s[i..j], Seqs.Value)
  {
    forall a, b | 0 <= a < b < j - i ensures Seqs.Value(s[i..j][a]) <= Seqs.Value(s[i..j][b]) {
      assert s[i..j][a] == s[i + a] && s[i..j][b] == s[i + b];
    }
  }

  /** As written, the amplitude is never negative: every magnitude of the
      upper window is at least every magnitude of the lower one. */
  lemma AmplitudeNonNegative(mags: seq<real>, npoints: int, median: bool)
    ensures AmplitudeOf(mags, npoints, median).Some? ==> AmplitudeOf(mags, npoints, median).value >= 0.0
  {
    SplitNonNegative(Seqs.SortBy(mags, Seqs.Value), npoints, median);
  }

  lemma SplitNonNegative(sorted: seq<real>, npoints: int, median: bool)
    requires Seqs.SortedBy(sorted, Seqs.Value)
    ensures SplitAt(sorted, npoints, median).Some? ==> SplitAt(sorted, npoints, median).value >= 0.0
  {
    var k := SliceIndex(npoints, |sorted|);
    if 0 < k < |sorted| {
      SliceSorted(sorted, k, |sorted|);
      SliceSorted(sorted, 0, k);
      CentreBounds(sorted[k..], median);
      CentreBounds(sorted[..k], median);
      assert sorted[k..] == sorted[k..|sorted|] && sorted[..k] == sorted[0..k];
      assert Seqs.Value(sorted[k - 1]) <= Seqs.Value(sorted[k]);
    }
  }

  /** The statistic of a sorted window is monotone in the window: a window
      that is elementwise at least another of the same length has a statistic
      at least the other's. */
  lemma CentreMonotone(a: seq<real>, b: seq<real>, median: bool)
    requires a != [] && |a| == |b|
    requires Seqs.SortedBy(a, Seqs.Value) && Seqs.SortedBy(b, Seqs.Value)
    requires forall i :: 0 <= i < |a| ==> a[i] <= b[i]
    ensures Centre(a, median) <= Centre(b, median)
  {
    if median {
      Seqs.SortBySorted(a, Seqs.Value);
      Seqs.SortBySorted(b, Seqs.Value);
    } else {
      SumMonotone(a, b);
      DivMonotone(Sum(a), Sum(b), |a| as real);
    }
  }

  lemma DivMonotone(x: real, y: real, n: real)
    requires n > 0.0 && x <= y
    ensures x / n <= y / n
  {
  }

  /** The i-th highest of the k highest values of a sorted sequence is at
      least the i-th lowest of its k lowest, and both windows are sorted. */
  lemma TopDominatesBottom(sorted: seq<real>, k: nat)
    requires 0 < k <= |sorted| && Seqs.SortedBy(sorted, Seqs.Value)
    ensures Seqs.SortedBy(sorted[..k], Seqs.Value)
    ensures Seqs.SortedBy(sorted[|sorted| - k..], Seqs.Value)
    ensures forall i :: 0 <= i < k ==> sorted[..k][i] <= sorted[|sorted| - k..][i]
  {
    var n := |sorted|;
    SliceSorted(sorted, n - k, n);
    SliceSorted(sorted, 0, k);
    assert sorted[n - k..] == sorted[n - k..n] && sorted[..k] == sorted[0..k];
    forall i | 0 <= i < k ensures sorted[..k][i] <= sorted[n - k..][i] {
      assert sorted[..k][i] == sorted[i] && sorted[n - k..][i] == sorted[n - k + i];
      if i < n - k + i {
        assert Seqs.Value(sorted[i]) <= Seqs.Value(sorted[n - k + i]);
      }
    }
  }

  /** The documented amplitude is never negative either. */
  lemma IntendedNonNegative(mags: seq<real>, npoints: int, median: bool)
    ensures AmplitudeIntended(mags, npoints, median).Some? ==> AmplitudeIntended(mags, npoints, median).value >= 0.0
  {
    var sorted := Seqs.SortBy(mags, Seqs.Value);
    var n := |sorted|;
    var k := SliceIndex(npoints, n);
    if 0 < k {
      TopDominatesBottom(sorted, k);
      CentreMonotone(sorted[..k], sorted[n - k..], median);
    }
  }

  /** The median of a sorted window is read off its middle. */
  lemma MedianOfSorted(w: seq<real>)
    requires w != [] && Seqs.SortedBy(w, Seqs.Value)
    ensures Median(w) == if |w| % 2 == 1 then w[|w| / 2] else (w[|w| / 2 - 1] + w[|w| / 2]) / 2.0
  {
    Seqs.SortBySorted(w, Seqs.Value);
  }

  lemma CentreSingle(x: real, median: bool)
    ensures Centre([x], median) == x
  {
    assert [x][1..] == [];
    if median {
      Seqs.SortBySorted([x], Seqs.Value);
      assert Seqs.SortBy([x], Seqs.Value)[0] == x;
      assert Median([x]) == x;
    } else {
      assert Sum([x]) == x + Sum([]);
    }
  }

  /** The first and last values of the sorted magnitudes are their least and
      greatest. */
  lemma SortedExtremes(mags: seq<real>) returns (lo: real, hi: real)
    requires mags != []
    ensures var sorted := Seqs.SortBy(mags, Seqs.Value);
            lo == sorted[0] && hi == sorted[|sorted| - 1]
    ensures lo in mags && hi in mags
    ensures forall i :: 0 <= i < |mags| ==> lo <= mags[i] <= hi
  {
    var sorted := Seqs.SortBy(mags, Seqs.Value);
    AscendingValues(sorted);
    lo, hi := sorted[0], sorted[|sorted| - 1];
    AscendingExtremes(sorted, mags);
  }

  /** Sorted by `Value` means ascending. */
  lemma AscendingValues(s: seq<real>)
    requires Seqs.SortedBy(s, Seqs.Value)
    ensures forall i, j :: 0 <= i < j < |s| ==> s[i] <= s[j]
  {
    forall i, j | 0 <= i < j < |s| ensures s[i] <= s[j] {
      assert Seqs.Value(s[i]) <= Seqs.Value(s[j]);
    }
  }

  lemma AscendingExtremes(sorted: seq<real>, mags: seq<real>)
    requires sorted != [] && multiset(sorted) == multiset(mags)
    requires forall i, j :: 0 <= i < j < |sorted| ==> sorted[i] <= sorted[j]
    ensures sorted[0] in mags && sorted[|sorted| - 1] in mags
    ensures forall i :: 0 <= i < |mags| ==> sorted[0] <= mags[i] <= sorted[|sorted| - 1]
  {
    var n := |sorted|;
    assert sorted[0] in multiset(mags) && sorted[n - 1] in multiset(mags);
    forall i | 0 <= i < |mags| ensures sorted[0] <= mags[i] <= sorted[n - 1] {
      assert mags[i] in multiset(sorted);
      var j :| 0 <= j < n && sorted[j] == mags[i];
      assert j == 0 || sorted[0] <= sorted[j];
      assert j == n - 1 || sorted[j] <= sorted[n - 1];
    }
  }

  lemma HighLowSingle(sorted: seq<real>, median: bool)
    requires sorted != []
    ensures HighLow(sorted, 1, median) == Some(sorted[|sorted| - 1] - sorted[0])
  {
    assert sorted[|sorted| - 1..] == [sorted[|sorted| - 1]] && sorted[..1] == [sorted[0]];
    CentreSingle(sorted[|sorted| - 1], median);
    CentreSingle(sorted[0], median);
  }

  /** With one point per window, the documented amplitude is the difference
      between the largest and the smallest magnitude. */
  lemma IntendedPeakToTrough(mags: seq<real>, median: bool) returns (lo: real, hi: real)
    requires mags != []
    ensures lo in mags && hi in mags
    ensures forall i :: 0 <= i < |mags| ==> lo <= mags[i] <= hi
    ensures AmplitudeIntended(mags, 1, median) == Some(hi - lo)
  {
    lo, hi := SortedExtremes(mags);
    IntendedSingle(mags, median, lo, hi);
  }

  lemma IntendedSingle(mags: seq<real>, median: bool, lo: real, hi: real)
    requires mags != []
    requires var sorted := Seqs.SortBy(mags, Seqs.Value);
             lo == sorted[0] && hi == sorted[|sorted| - 1]
    ensures AmplitudeIntended(mags, 1, median) == Some(hi - lo)
  {
    var sorted := Seqs.SortBy(mags, Seqs.Value);
    HighLowSingle(sorted, median);
  }

  /** On the magnitudes 1, 2, 3, 5 and 8 with the defaults (one point,
      median), the code subtracts the lowest magnitude from the median of the
      other four, giving 3 ... */
  lemma AmplitudeAsWrittenExample(mags: seq<real>)
    requires mags == [1.0, 2.0, 3.0, 5.0, 8.0]
    ensures AmplitudeOf(mags, 1, true) == Some(3.0)
  {
    AdjacentSorted(mags);
    Seqs.SortBySorted(mags, Seqs.Value);
    SplitExample(mags);
  }

  /** ... where the peak-to-trough amplitude is 7. */
  lemma AmplitudeIntendedExample(mags: seq<real>)
    requires mags == [1.0, 2.0, 3.0, 5.0, 8.0]
    ensures AmplitudeIntended(mags, 1, true) == Some(7.0)
  {
    AdjacentSorted(mags);
    Seqs.SortBySorted(mags, Seqs.Value);
    HighLowSingle(mags, true);
  }

  lemma SplitExample(sorted: seq<real>)
    requires sorted == [1.0, 2.0, 3.0, 5.0, 8.0]
    ensures SplitAt(sorted, 1, true) == Some(3.0)
  {
    var upper := sorted[1..];
    assert |upper| == 4 && upper[1] == 3.0 && upper[2] == 5.0;
    assert sorted[..1] == [1.0];
    MedianOfSorted(upper);
    CentreSingle(1.0, true);
  }

  /** A sequence whose neighbours are in order is sorted. */
  lemma {:induction false} AdjacentSorted(s: seq<real>)
    requires forall i :: 0 <= i < |s| - 1 ==> s[i] <= s[i + 1]
    ensures Seqs.SortedBy(s, Seqs.Value)
  {
    if |s| > 1 {
      var tail := s[1..];
      AdjacentSorted(tail);
      forall i, j | 0 <= i < j < |s| ensures Seqs.Value(s[i]) <= Seqs.Value(s[j]) {
        assert s[j] == tail[j - 1];
        if i > 0 {
          assert s[i] == tail[i - 1];
        } else if j > 1 {
          assert s[1] == tail[0];
        }
      }
    }
  }
}
