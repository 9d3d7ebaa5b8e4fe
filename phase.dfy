/** The folding and replication of get_phase_diagram (database.py:1104-1157):
    each Unix time becomes the fractional part of its distance from the
    earliest time, in periods, and the folded points are repeated with the
    phase shifted by one per copy. */
module Phase {
  import opened Records

  /** The integer part of `math.modf`: `x` rounded toward zero. */
  function Trunc(x: real): (n: int)
    ensures x >= 0.0 ==> 0.0 <= n as real <= x < n as real + 1.0
    ensures x < 0.0 ==> n as real - 1.0 < x <= n as real <= 0.0
  {
    if x >= 0.0 then x.Floor else -((-x).Floor)
  }

  /** The fractional part of `math.modf`: it has the sign of `x`, and `x`
      minus it is a whole number. */
  function Frac(x: real): (f: real)
    ensures x >= 0.0 ==> 0.0 <= f < 1.0
    ensures x < 0.0 ==> -1.0 < f <= 0.0
    ensures (x - f).Floor as real == x - f
  {
    x - Trunc(x) as real
  }

  /** `min(unix_times)`. */
  function MinTime(points: seq<Point>): (t: real)
    requires points != []
    ensures exists i :: 0 <= i < |points| && points[i].time == t
    ensures forall i :: 0 <= i < |points| ==> t <= points[i].time
  {
    if |points| == 1 then points[0].time
    else
      var rest := MinTime(points[1..]);
      assert forall i :: 1 <= i < |points| ==> points[i] == points[1..][i - 1];
      if points[0].time <= rest then points[0].time else rest
  }

  /** The phase of a Unix time: how far into its cycle it is. */
  function PhaseOf(t: real, zero: real, period: real): real
    requires period != 0.0
  {
    Frac((t - zero) / period)
  }

  /** The first copy: each point with its time replaced by its phase. */
  function Fold(points: seq<Point>, zero: real, period: real): (r: seq<Point>)
    requires period != 0.0
    ensures |r| == |points|
  {
    seq(|points|, j requires 0 <= j < |points| =>
      Point(PhaseOf(points[j].time, zero, period), points[j].mag, points[j].snr))
  }

  /** A copy of the folded points with every phase increased by `k`. */
  function Shift(first: seq<Point>, k: int): (r: seq<Point>)
    ensures |r| == |first|
  {
    seq(|first|, j requires 0 <= j < |first| => Point(first[j].time + k as real, first[j].mag, first[j].snr))
  }

  /** Copies 0 .. count - 1 of the folded points, one after the other. */
  function Replicate(first: seq<Point>, count: nat): seq<Point>
  {
    if count == 0 then [] else Replicate(first, count - 1) + Shift(first, count - 1)
  }

  /** `k * n`, built by repeated addition so that the layout proofs stay linear. */
  function Offset(k: nat, n: nat): nat
  {
    if k == 0 then 0 else Offset(k - 1, n) + n
  }

  lemma {:induction false} OffsetIsProduct(k: nat, n: nat)
    ensures Offset(k, n) == k * n
  {
    if k > 0 {
      OffsetIsProduct(k - 1, n);
    }
  }

  lemma {:induction false} OffsetBelow(k: nat, c: nat, n: nat)
    requires k < c
    ensures Offset(k, n) + n <= Offset(c, n)
    decreases c
  {
    if k < c - 1 {
      OffsetBelow(k, c - 1, n);
    }
  }

  lemma {:induction false} ReplicateLength(first: seq<Point>, count: nat)
    ensures |Replicate(first, count)| == Offset(count, |first|)
  {
    if count > 0 {
      ReplicateLength(first, count - 1);
    }
  }

  /** Copy k occupies positions Offset(k, n) .. Offset(k, n) + n - 1 of the
      replicated points, n being the number of folded points: entry j of the
      copy sits at Offset(k, n) + j. */
  lemma {:induction false} ReplicateCopy(first: seq<Point>, count: nat, k: nat, j: nat)
    requires k < count && j < |first|
    ensures Offset(k, |first|) + j < |Replicate(first, count)|
    ensures Replicate(first, count)[Offset(k, |first|) + j] == Shift(first, k)[j]
  {
    var prev := Replicate(first, count - 1);
    var last := Shift(first, count - 1);
    ReplicateLength(first, count - 1);
    if k < count - 1 {
      ReplicateCopy(first, count - 1, k, j);
      AppendLeft(prev, last, Offset(k, |first|) + j);
    } else {
      AppendRight(prev, last, j);
    }
  }

  lemma AppendLeft(a: seq<Point>, b: seq<Point>, i: nat)
    requires i < |a|
    ensures (a + b)[i] == a[i]
  {
  }

  lemma AppendRight(a: seq<Point>, b: seq<Point>, j: nat)
    requires j < |b|
    ensures (a + b)[|a| + j] == b[j]
  {
  }

  /** get_phase_diagram on the chronological points of a stored curve: a
      zero period fails in the division, `repeat` below one fails the length
      assertion of database.py:1149, and otherwise the points are the `repeat`
      copies of the folded curve. */
  function PhaseDiagram(chrono: seq<Point>, period: real, repeat: int): (r: Result<seq<Point>, DbError>)
    requires chrono != []
    ensures period == 0.0 ==> r == Failure(ZeroDivision)
    ensures period != 0.0 && repeat < 1 ==> r == Failure(AssertionFailed)
    ensures r.Success? ==> |r.value| == Offset(repeat, |chrono|)
  {
    if period == 0.0 then Failure(ZeroDivision)
    else if repeat < 1 then Failure(AssertionFailed)
    else
      ReplicateLength(Fold(chrono, MinTime(chrono), period), repeat);
      Success(Replicate(Fold(chrono, MinTime(chrono), period), repeat))
  }

  /** Entry Offset(k, n) + j of the phase diagram (k * n + j, by
      OffsetIsProduct) is point j of the chronological curve in copy k: its
      phase plus k, with the point's own magnitude and SNR. */
  lemma PhaseDiagramEntry(chrono: seq<Point>, period: real, repeat: int, k: nat, j: nat)
    requires chrono != [] && period != 0.0 && k < repeat && j < |chrono|
    ensures PhaseDiagram(chrono, period, repeat).Success?
    ensures Offset(k, |chrono|) + j < |PhaseDiagram(chrono, period, repeat).value|
    ensures PhaseDiagram(chrono, period, repeat).value[Offset(k, |chrono|) + j]
         == Point(PhaseOf(chrono[j].time, MinTime(chrono), period) + k as real, chrono[j].mag, chrono[j].snr)
  {
    var zero := MinTime(chrono);
    assert PhaseDiagram(chrono, period, repeat) == Success(Replicate(Fold(chrono, zero, period), repeat));
    FoldedCopy(chrono, zero, period, repeat, k, j);
  }

  lemma FoldedCopy(chrono: seq<Point>, zero: real, period: real, repeat: nat, k: nat, j: nat)
    requires period != 0.0 && k < repeat && j < |chrono|
    ensures Offset(k, |chrono|) + j < |Replicate(Fold(chrono, zero, period), repeat)|
    ensures Replicate(Fold(chrono, zero, period), repeat)[Offset(k, |chrono|) + j]
         == Point(PhaseOf(chrono[j].time, zero, period) + k as real, chrono[j].mag, chrono[j].snr)
  {
    var first := Fold(chrono, zero, period);
    ReplicateCopy(first, repeat, k, j);
    assert first[j] == Point(PhaseOf(chrono[j].time, zero, period), chrono[j].mag, chrono[j].snr);
    assert Shift(first, k)[j] == Point(first[j].time + k as real, first[j].mag, first[j].snr);
  }

  /** With a positive period every phase lies in [0, 1), the earliest
      time being the zero. */
  lemma PhaseInUnitInterval(chrono: seq<Point>, period: real, j: nat)
    requires period > 0.0 && j < |chrono|
    ensures 0.0 <= PhaseOf(chrono[j].time, MinTime(chrono), period) < 1.0
  {
    DivNonNegative(chrono[j].time - MinTime(chrono), period);
  }

  lemma DivNonNegative(x: real, y: real)
    requires x >= 0.0 && y > 0.0
    ensures x / y >= 0.0
  {
  }
}
