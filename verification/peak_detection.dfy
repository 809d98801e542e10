/**
 * Local extrema of an absorbance series. Maxima are the peaks of the series,
 * minima are the peaks of the negated series, and no height, prominence or
 * separation filter is applied.
 *
 * The peak scan itself belongs to SciPy's `find_peaks`, which is outside this
 * repository. `FindPeaks` models that scan as SciPy documents it, and this is
 * an ASSUMPTION about the library: an interior sample, or a flat run of equal
 * samples, bordered on both sides by strictly lower samples is one peak,
 * reported at the run's midpoint (rounded down). `StrictMaxima` is the
 * reference definition, "an interior sample strictly above both neighbours";
 * the two coincide whenever no two adjacent samples are equal.
 */
module PeakDetection {

  /** An interior sample strictly above both of its neighbours. */
  predicate IsLocalMax(x: seq<real>, i: int) {
    0 < i < |x| - 1 && x[i - 1] < x[i] && x[i + 1] < x[i]
  }

  /** An interior sample strictly below both of its neighbours. */
  predicate IsLocalMin(x: seq<real>, i: int) {
    0 < i < |x| - 1 && x[i] < x[i - 1] && x[i] < x[i + 1]
  }

  predicate NoEqualNeighbours(x: seq<real>) {
    forall i :: 0 < i < |x| ==> x[i - 1] != x[i]
  }

  predicate StrictlyIncreasing(s: seq<nat>) {
    forall k, l :: 0 <= k < l < |s| ==> s[k] < s[l]
  }

  function Negate(x: seq<real>): (r: seq<real>)
    ensures |r| == |x|
    ensures forall i :: 0 <= i < |x| ==> r[i] == -x[i]
  {
    seq(|x|, i requires 0 <= i < |x| => -x[i])
  }

  // ----- Reference scan -----

  /** The strict local maxima at or after index i, in ascending order. */
  function StrictMaximaFrom(x: seq<real>, i: nat): seq<nat>
    decreases |x| - i
  {
    if i >= |x| - 1 then []
    else if IsLocalMax(x, i) then [i] + StrictMaximaFrom(x, i + 1)
    else StrictMaximaFrom(x, i + 1)
  }

  /**
   * The reference scan lists, in ascending order, exactly the strict local
   * maxima at or after i.
   */
  lemma {:induction false} StrictMaximaFromExact(x: seq<real>, i: nat)
    ensures forall k :: 0 <= k < |StrictMaximaFrom(x, i)| ==> i <= StrictMaximaFrom(x, i)[k]
    ensures StrictlyIncreasing(StrictMaximaFrom(x, i))
    ensures forall k :: k in StrictMaximaFrom(x, i) <==> i <= k && IsLocalMax(x, k)
    decreases |x| - i
  {
    if i < |x| - 1 {
      StrictMaximaFromExact(x, i + 1);
    }
  }

  function StrictMaxima(x: seq<real>): seq<nat> {
    StrictMaximaFrom(x, 1)
  }

  // ----- The library's scan -----

  /**
   * Where the run of samples equal to v that starts at j stops: the first
   * index at or after j whose sample differs from v, or the last index.
   */
  function RunEnd(x: seq<real>, v: real, j: nat): (e: nat)
    requires j <= |x| - 1
    ensures j <= e <= |x| - 1
    ensures forall k :: j <= k < e ==> x[k] == v
    ensures e < |x| - 1 ==> x[e] != v
    decreases |x| - j
  {
    if j < |x| - 1 && x[j] == v then RunEnd(x, v, j + 1) else j
  }

  /**
   * The peaks the scan reports from index i on. A rise at i starts a run of
   * equal samples ending before e; when x[e] is lower the run is a peak,
   * reported at its midpoint, and the scan resumes after e.
   */
  function ScanPeaks(x: seq<real>, i: nat): (p: seq<nat>)
    requires 1 <= i
    ensures forall k :: 0 <= k < |p| ==> i <= p[k] < |x| - 1
    decreases |x| - i
  {
    if i >= |x| - 1 then []
    else if x[i - 1] < x[i] then
      var e := RunEnd(x, x[i], i + 1);
      if x[e] < x[i] then [(i + e - 1) / 2] + ScanPeaks(x, e + 1)
      else ScanPeaks(x, i + 1)
    else ScanPeaks(x, i + 1)
  }

  /** One step of the scan at an interior index i. */
  lemma ScanPeaksStep(x: seq<real>, i: nat)
    requires 1 <= i < |x| - 1
    ensures var e := RunEnd(x, x[i], i + 1);
      ScanPeaks(x, i) ==
        if x[i - 1] < x[i] && x[e] < x[i] then [(i + e - 1) / 2] + ScanPeaks(x, e + 1)
        else ScanPeaks(x, i + 1)
  {
  }

  /** Reported peaks are ascending and at least two samples apart. */
  lemma {:induction false} ScanPeaksSpaced(x: seq<real>, i: nat)
    requires 1 <= i
    ensures forall k, l :: 0 <= k < l < |ScanPeaks(x, i)| ==> ScanPeaks(x, i)[k] + 2 <= ScanPeaks(x, i)[l]
    decreases |x| - i
  {
    if i < |x| - 1 {
      if x[i - 1] < x[i] {
        var e := RunEnd(x, x[i], i + 1);
        if x[e] < x[i] {
          ScanPeaksSpaced(x, e + 1);
        } else {
          ScanPeaksSpaced(x, i + 1);
        }
      } else {
        ScanPeaksSpaced(x, i + 1);
      }
    }
  }

  /** The peaks of a whole series. */
  function FindPeaks(x: seq<real>): (p: seq<nat>)
    ensures StrictlyIncreasing(p)
    ensures forall k :: 0 <= k < |p| ==> 0 < p[k] < |x| - 1
  {
    ScanPeaksSpaced(x, 1);
    ScanPeaks(x, 1)
  }

  /** Local maxima and local minima, as two index sequences. */
  datatype Extrema = Extrema(maxima: seq<nat>, minima: seq<nat>)

  /** Maxima are the peaks of the series, minima the peaks of its negation. */
  function DetectPeaks(absorbance: seq<real>): (r: Extrema)
    ensures StrictlyIncreasing(r.maxima) && StrictlyIncreasing(r.minima)
    ensures forall k :: 0 <= k < |r.maxima| ==> 0 < r.maxima[k] < |absorbance| - 1
    ensures forall k :: 0 <= k < |r.minima| ==> 0 < r.minima[k] < |absorbance| - 1
  {
    Extrema(FindPeaks(absorbance), FindPeaks(Negate(absorbance)))
  }

  // ----- Runs of equal samples -----

  /** Start of the run of samples equal to x[p] that contains p. */
  function RunStart(x: seq<real>, p: nat): (s: nat)
    requires p < |x|
    ensures s <= p
    ensures 0 < s ==> x[s - 1] != x[p]
    ensures forall k :: s <= k <= p ==> x[k] == x[p]
  {
    if 0 < p && x[p - 1] == x[p] then RunStart(x, p - 1) else p
  }

  /** One past the end of the run of samples equal to x[p] that contains p. */
  function RunStop(x: seq<real>, p: nat): (t: nat)
    requires p < |x|
    ensures p < t <= |x|
    ensures t < |x| ==> x[t] != x[p]
    ensures forall k :: p <= k < t ==> x[k] == x[p]
    decreases |x| - p
  {
    if p + 1 < |x| && x[p + 1] == x[p] then RunStop(x, p + 1) else p + 1
  }

  /** p lies on a run of equal samples bordered on both sides by strictly lower samples. */
  predicate OnFlatPeak(x: seq<real>, p: nat) {
    p < |x| && 0 < RunStart(x, p) && RunStop(x, p) < |x| &&
    x[RunStart(x, p) - 1] < x[p] && x[RunStop(x, p)] < x[p]
  }

  lemma RunStartNegate(x: seq<real>, p: nat)
    requires p < |x|
    ensures RunStart(Negate(x), p) == RunStart(x, p)
  {
  }

  // ----- What the scan reports -----

  /** The midpoint of a run [i, e) that rises at i and falls at e lies on a flat peak. */
  lemma MidpointIsFlatPeak(x: seq<real>, i: nat, e: nat)
    requires 0 < i < e < |x|
    requires x[i - 1] < x[i] && x[e] < x[i]
    requires forall k :: i <= k < e ==> x[k] == x[i]
    ensures OnFlatPeak(x, (i + e - 1) / 2)
  {
  }

  /** Every reported peak lies on a (possibly one-sample) run bordered by lower samples. */
  lemma {:induction false} ScanReportsFlatPeaks(x: seq<real>, i: nat, p: nat)
    requires 1 <= i
    requires p in ScanPeaks(x, i)
    ensures OnFlatPeak(x, p)
    decreases |x| - i
  {
    if x[i - 1] < x[i] {
      var e := RunEnd(x, x[i], i + 1);
      if x[e] < x[i] {
        if p == (i + e - 1) / 2 {
          MidpointIsFlatPeak(x, i, e);
        } else {
          ScanReportsFlatPeaks(x, e + 1, p);
        }
      } else {
        ScanReportsFlatPeaks(x, i + 1, p);
      }
    } else {
      ScanReportsFlatPeaks(x, i + 1, p);
    }
  }

  /**
   * A strict local maximum k inside the run that rises at i is the run's
   * first sample, and the run is that one sample.
   */
  lemma StrictMaximumStartsItsRun(x: seq<real>, i: nat, k: nat)
    requires 1 <= i <= k
    requires IsLocalMax(x, k)
    requires x[i - 1] < x[i]
    requires k < RunEnd(x, x[i], i + 1)
    ensures k == i && RunEnd(x, x[i], i + 1) == i + 1
  {
    if i < k {
      assert false;
    }
  }

  /** Every strict local maximum from index i on is reported, however close to another. */
  lemma {:induction false} ScanReportsStrictMaxima(x: seq<real>, i: nat, k: nat)
    requires 1 <= i <= k
    requires IsLocalMax(x, k)
    ensures k in ScanPeaks(x, i)
    decreases |x| - i
  {
    if x[i - 1] < x[i] {
      var e := RunEnd(x, x[i], i + 1);
      ScanPeaksStep(x, i);
      if k < e {
        StrictMaximumStartsItsRun(x, i, k);
      } else if x[e] < x[i] {
        // x[e - 1] is the run's value, so the fall at e is not a rise into k
        assert x[e - 1] == x[i];
        ScanReportsStrictMaxima(x, e + 1, k);
      } else {
        ScanReportsStrictMaxima(x, i + 1, k);
      }
    } else {
      ScanPeaksStep(x, i);
      ScanReportsStrictMaxima(x, i + 1, k);
    }
  }

  /** Without equal adjacent samples the library's scan is the strict reference scan. */
  lemma {:induction false} ScanIsStrictScan(x: seq<real>, i: nat)
    requires 1 <= i
    requires NoEqualNeighbours(x)
    ensures ScanPeaks(x, i) == StrictMaximaFrom(x, i)
    decreases |x| - i
  {
    if i < |x| - 1 {
      if x[i - 1] < x[i] {
        assert x[i] != x[i + 1];
        assert RunEnd(x, x[i], i + 1) == i + 1;
        if x[i + 1] < x[i] {
          assert ScanPeaks(x, i) == [i] + ScanPeaks(x, i + 2);
          assert StrictMaximaFrom(x, i) == [i] + StrictMaximaFrom(x, i + 1);
          assert StrictMaximaFrom(x, i + 1) == StrictMaximaFrom(x, i + 2);
          ScanIsStrictScan(x, i + 2);
        } else {
          ScanIsStrictScan(x, i + 1);
        }
      } else {
        ScanIsStrictScan(x, i + 1);
      }
    }
  }

  lemma FindPeaksIsStrictMaxima(x: seq<real>)
    requires NoEqualNeighbours(x)
    ensures FindPeaks(x) == StrictMaxima(x)
  {
    ScanIsStrictScan(x, 1);
  }

  // ----- Properties of the detector -----

  /** A series shorter than three samples, the empty one included, has no extrema. */
  lemma ShortSeriesHasNoExtrema(x: seq<real>)
    requires |x| < 3
    ensures DetectPeaks(x) == Extrema([], [])
  {
  }

  /** Every strict local maximum and every strict local minimum is reported, on any series. */
  lemma StrictExtremaReported(x: seq<real>, i: nat)
    ensures IsLocalMax(x, i) ==> i in DetectPeaks(x).maxima
    ensures IsLocalMin(x, i) ==> i in DetectPeaks(x).minima
  {
    if IsLocalMax(x, i) {
      ScanReportsStrictMaxima(x, 1, i);
    }
    if IsLocalMin(x, i) {
      assert IsLocalMax(Negate(x), i);
      ScanReportsStrictMaxima(Negate(x), 1, i);
    }
  }

  /**
   * Without equal adjacent samples, an index is a maximum exactly when its
   * sample is above both neighbours, and a minimum exactly when below both.
   */
  lemma ExtremaExact(x: seq<real>, i: nat)
    requires NoEqualNeighbours(x)
    ensures i in DetectPeaks(x).maxima <==> IsLocalMax(x, i)
    ensures i in DetectPeaks(x).minima <==> IsLocalMin(x, i)
  {
    var n := Negate(x);
    assert NoEqualNeighbours(n) by {
      forall j | 0 < j < |n| ensures n[j - 1] != n[j] {
        assert x[j - 1] != x[j];
      }
    }
    FindPeaksIsStrictMaxima(x);
    FindPeaksIsStrictMaxima(n);
    StrictMaximaFromExact(x, 1);
    StrictMaximaFromExact(n, 1);
    assert IsLocalMax(n, i) <==> IsLocalMin(x, i);
  }

  /** A sample on a flat peak of x is not on a flat peak of -x: its run's left border is lower, not higher. */
  lemma FlatPeakIsNotFlatValley(x: seq<real>, p: nat)
    requires OnFlatPeak(x, p)
    ensures !OnFlatPeak(Negate(x), p)
  {
    var s := RunStart(x, p);
    RunStartNegate(x, p);
    assert Negate(x)[s - 1] == -x[s - 1] && Negate(x)[p] == -x[p];
  }

  /** No index is both a maximum and a minimum, on any series, plateaus included. */
  lemma ExtremaDisjoint(x: seq<real>)
    ensures forall p :: p in DetectPeaks(x).maxima ==> p !in DetectPeaks(x).minima
  {
    forall p | p in DetectPeaks(x).maxima
      ensures p !in DetectPeaks(x).minima
    {
      ScanReportsFlatPeaks(x, 1, p);
      FlatPeakIsNotFlatValley(x, p);
      if p in DetectPeaks(x).minima {
        ScanReportsFlatPeaks(Negate(x), 1, p);
      }
    }
  }

  /** Negating the series swaps its maxima and minima. */
  lemma NegationSwapsExtrema(x: seq<real>)
    ensures DetectPeaks(Negate(x)) == Extrema(DetectPeaks(x).minima, DetectPeaks(x).maxima)
  {
    assert Negate(Negate(x)) == x;
  }

  /** The worked example: maxima at 2 and 5, the minimum at 4, the end samples never. */
  lemma WorkedExample()
    ensures DetectPeaks([0.1, 0.2, 0.9, 0.3, 0.05, 0.4, 0.15]) == Extrema([2, 5], [4])
  {
    var x := [0.1, 0.2, 0.9, 0.3, 0.05, 0.4, 0.15];
    var n := [-0.1, -0.2, -0.9, -0.3, -0.05, -0.4, -0.15];
    assert Negate(x) == n;
    WorkedExampleMaxima(x);
    WorkedExampleMinima(n);
  }

  lemma WorkedExampleMaxima(x: seq<real>)
    requires x == [0.1, 0.2, 0.9, 0.3, 0.05, 0.4, 0.15]
    ensures FindPeaks(x) == [2, 5]
  {
    assert NoEqualNeighbours(x);
    FindPeaksIsStrictMaxima(x);
    assert StrictMaximaFrom(x, 6) == [];
    assert StrictMaximaFrom(x, 5) == [5];
    assert StrictMaximaFrom(x, 3) == [5];
    assert StrictMaximaFrom(x, 1) == [2, 5];
  }

  lemma WorkedExampleMinima(n: seq<real>)
    requires n == [-0.1, -0.2, -0.9, -0.3, -0.05, -0.4, -0.15]
    ensures FindPeaks(n) == [4]
  {
    assert NoEqualNeighbours(n);
    FindPeaksIsStrictMaxima(n);
    assert StrictMaximaFrom(n, 5) == [];
    assert StrictMaximaFrom(n, 4) == [4];
    assert StrictMaximaFrom(n, 2) == [4];
    assert StrictMaximaFrom(n, 1) == [4];
  }

  /** Extrema two samples apart are both reported: the distance of one sample removes nothing. */
  lemma AdjacentExtremaKept()
    ensures DetectPeaks([0.0, 1.0, 0.0, 1.0, 0.0]) == Extrema([1, 3], [2])
  {
    var x := [0.0, 1.0, 0.0, 1.0, 0.0];
    var n := [0.0, -1.0, 0.0, -1.0, 0.0];
    assert Negate(x) == n;
    AdjacentExtremaMaxima(x);
    AdjacentExtremaMinima(n);
  }

  lemma AdjacentExtremaMaxima(x: seq<real>)
    requires x == [0.0, 1.0, 0.0, 1.0, 0.0]
    ensures FindPeaks(x) == [1, 3]
  {
    assert NoEqualNeighbours(x);
    FindPeaksIsStrictMaxima(x);
    assert StrictMaximaFrom(x, 3) == [3];
    assert StrictMaximaFrom(x, 1) == [1, 3];
  }

  lemma AdjacentExtremaMinima(n: seq<real>)
    requires n == [0.0, -1.0, 0.0, -1.0, 0.0]
    ensures FindPeaks(n) == [2]
  {
    assert NoEqualNeighbours(n);
    FindPeaksIsStrictMaxima(n);
    assert StrictMaximaFrom(n, 3) == [];
    assert StrictMaximaFrom(n, 1) == [2];
  }
}
