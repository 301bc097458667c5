/**
  Per-window feature record (`build_features`).

  The record has the 17 fields of the source's dictionary, in the same
  order, which is the column order of the tensor built from it. Two numeric
  routines the source takes from libraries are parameters here: the
  wavelet peak detector `find_peaks_cwt` and the square root inside `np.std`.
 */
module FeatureBuilder {
  import opened Samples
  import opened ExtremaExtractor

  datatype Features = Features(
    numSignals: nat,
    duration: real,
    maxCurrent: real,
    minCurrent: real,
    meanCurrent: real,
    stdCurrent: real,
    numExtrema: nat,
    meanExtrema: real,
    stdExtrema: real,
    meanExtremaDiff: real,
    numPeaks: nat,
    meanPeaks: real,
    peak1: real,
    peak2: real,
    peak3: real,
    peak4: real,
    peak5: real)

  /** Number of fields of the record, the feature dimension of the dataset. */
  const FeatureCount: nat := 17

  /** The library routines feature extraction depends on. */
  datatype Primitives = Primitives(
    findPeaks: (seq<real>, real) -> seq<int>,   // find_peaks_cwt(signal, widths)
    sqrt: real -> real)                         // the square root inside np.std

  /** The peak detector only ever returns positions inside the signal it was given. */
  ghost predicate PeaksInRange(prims: Primitives) {
    forall xs: seq<real>, width: real, k: int ::
      0 <= k < |prims.findPeaks(xs, width)| ==> 0 <= prims.findPeaks(xs, width)[k] < |xs|
  }

  /** The record every field of which is 0: the value for an empty window. */
  const Zero: Features := Features(0, 0.0, 0.0, 0.0, 0.0, 0.0, 0, 0.0, 0.0, 0.0, 0, 0.0, 0.0, 0.0, 0.0, 0.0, 0.0)

  /** `list(features.values())`: the record as one tensor row, in field order. */
  function Row(f: Features): (row: seq<real>)
    ensures |row| == FeatureCount
  {
    [f.numSignals as real, f.duration, f.maxCurrent, f.minCurrent, f.meanCurrent, f.stdCurrent,
     f.numExtrema as real, f.meanExtrema, f.stdExtrema, f.meanExtremaDiff,
     f.numPeaks as real, f.meanPeaks, f.peak1, f.peak2, f.peak3, f.peak4, f.peak5]
  }

  /** The five ranked peak slots peak_1 .. peak_5. */
  function PeakSlots(f: Features): (slots: seq<real>)
    ensures |slots| == 5
  {
    [f.peak1, f.peak2, f.peak3, f.peak4, f.peak5]
  }

  /** `np.std`: the square root of the population variance. */
  function Std(prims: Primitives, xs: seq<real>): real
    requires |xs| > 0
  {
    prims.sqrt(Variance(xs))
  }

  /** `np.mean(extrema)` flattens the (time, current) pairs: t0, c0, t1, c1, ... */
  function Flatten(samples: Event): (flat: seq<real>)
    ensures |flat| == 2 * |samples|
  {
    if samples == [] then []
    else Flatten(samples[..|samples| - 1]) + [samples[|samples| - 1].time, samples[|samples| - 1].current]
  }

  /** The flattened array holds sample i's time at position 2i and its current at 2i+1. */
  lemma {:induction false} FlattenPairs(samples: Event)
    ensures forall i :: 0 <= i < |samples| ==>
      Flatten(samples)[2 * i] == samples[i].time && Flatten(samples)[2 * i + 1] == samples[i].current
  {
    if samples != [] {
      var n := |samples| - 1;
      FlattenPairs(samples[..n]);
      assert forall i :: 0 <= i < n ==> samples[..n][i] == samples[i];
    }
  }

  /** Absolute current changes between consecutive extrema. */
  function ExtremaSteps(ext: Event): (steps: seq<real>)
    requires |ext| >= 1
    ensures |steps| == |ext| - 1
  {
    seq(|ext| - 1, i requires 0 <= i < |ext| - 1 => Abs(ext[i + 1].current - ext[i].current))
  }

  /** Each extremum step is the distance between two consecutive extrema currents: non-negative, and the difference up to sign. */
  lemma ExtremaStepsAreDistances(ext: Event)
    requires |ext| >= 1
    ensures forall i :: 0 <= i < |ext| - 1 ==>
      && ExtremaSteps(ext)[i] >= 0.0
      && (ExtremaSteps(ext)[i] == ext[i + 1].current - ext[i].current || ExtremaSteps(ext)[i] == ext[i].current - ext[i + 1].current)
  {
  }

  /** The width handed to the peak detector: `max([1, event[-1][0]])`. */
  function PeakWidth(w: Event): real
    requires |w| > 0
  {
    RealMax(1.0, w[|w| - 1].time)
  }

  /** `find_peaks_cwt(event[:, 1], widths=...)` on a non-empty window. */
  function PeakIndices(w: Event, prims: Primitives): (idx: seq<int>)
    requires |w| > 0
    requires PeaksInRange(prims)
    ensures forall k :: 0 <= k < |idx| ==> 0 <= idx[k] < |w|
  {
    prims.findPeaks(Currents(w), PeakWidth(w))
  }

  /** `event[peaks_idx][:, 1]`: the currents at the detected peaks. */
  function PeakCurrents(w: Event, prims: Primitives): (pc: seq<real>)
    requires |w| > 0
    requires PeaksInRange(prims)
    ensures |pc| == |PeakIndices(w, prims)|
  {
    Pick(Currents(w), PeakIndices(w, prims))
  }

  /** Slot k of the ranking: the k-th largest peak current, or 0 when there are fewer peaks. */
  function Ranked(peaks: seq<real>, k: nat): real
    requires SortedDesc(peaks)
  {
    if k < |peaks| then peaks[k] else 0.0
  }

  /** `build_features(event, extrema_th)`. */
  function BuildFeatures(w: Event, th: real, prims: Primitives): (f: Features)
    requires PeaksInRange(prims)
  {
    if |w| == 0 then Zero
    else
      var cs := Currents(w);
      var ext := Extrema(w, th);
      var peakCount := |PeakIndices(w, prims)|;
      var peaks := SortDesc(PeakCurrents(w, prims));
      Features(
        numSignals := |w|,
        duration := w[|w| - 1].time,
        maxCurrent := SeqMax(cs),
        minCurrent := SeqMin(cs),
        meanCurrent := Mean(cs),
        stdCurrent := Std(prims, cs),
        numExtrema := |ext|,
        meanExtrema := Mean(Flatten(ext)),
        stdExtrema := Std(prims, Flatten(ext)),
        meanExtremaDiff := Mean(ExtremaSteps(ext)),
        numPeaks := peakCount,
        meanPeaks := if peakCount > 0 then Mean(peaks) else 0.0,
        peak1 := if peakCount > 0 then Ranked(peaks, 0) else 0.0,
        peak2 := if peakCount > 0 then Ranked(peaks, 1) else 0.0,
        peak3 := if peakCount > 0 then Ranked(peaks, 2) else 0.0,
        peak4 := if peakCount > 0 then Ranked(peaks, 3) else 0.0,
        peak5 := if peakCount > 0 then Ranked(peaks, 4) else 0.0)
  }

  /** An empty window yields the all-zero record and an all-zero row. */
  lemma EmptyWindowIsZero(th: real, prims: Primitives)
    requires PeaksInRange(prims)
    ensures BuildFeatures([], th, prims) == Zero
    ensures forall c :: 0 <= c < FeatureCount ==> Row(BuildFeatures([], th, prims))[c] == 0.0
  {
  }

  /**
    A non-empty window: the sample count, the time of the last sample, the
    size of the extrema sequence (at least 2, at most max(2, n)), and the
    current statistics are ordered min <= mean <= max, with min and max
    attained by samples of the window.
   */
  lemma WindowStatistics(w: Event, th: real, prims: Primitives)
    requires PeaksInRange(prims)
    requires |w| > 0
    ensures var f := BuildFeatures(w, th, prims);
      && f.numSignals == |w|
      && f.duration == w[|w| - 1].time
      && f.numExtrema == |Extrema(w, th)|
      && 2 <= f.numExtrema <= (if |w| < 2 then 2 else |w|)
      && f.minCurrent <= f.meanCurrent <= f.maxCurrent
      && (forall i :: 0 <= i < |w| ==> f.minCurrent <= w[i].current <= f.maxCurrent)
      && (exists i :: 0 <= i < |w| && w[i].current == f.maxCurrent)
      && (exists i :: 0 <= i < |w| && w[i].current == f.minCurrent)
  {
    var cs := Currents(w);
    ExtremaEndpoints(w, th);
    MeanBounds(cs, SeqMin(cs), SeqMax(cs));
    var iMax :| 0 <= iMax < |cs| && cs[iMax] == SeqMax(cs);
    var iMin :| 0 <= iMin < |cs| && cs[iMin] == SeqMin(cs);
    assert w[iMax].current == SeqMax(cs);
    assert w[iMin].current == SeqMin(cs);
  }

  /**
    A one-sample window: its current is the maximum, minimum and mean; the
    variance under the standard deviation is 0; its extrema are the sample
    twice, so the mean extremum step is 0.
   */
  lemma SingleSampleWindow(s: Sample, th: real, prims: Primitives)
    requires PeaksInRange(prims)
    requires prims.sqrt(0.0) == 0.0
    ensures var f := BuildFeatures([s], th, prims);
      && f.maxCurrent == f.minCurrent == f.meanCurrent == s.current
      && f.stdCurrent == 0.0
      && f.numExtrema == 2
      && f.meanExtremaDiff == 0.0
  {
    var w := [s];
    assert Currents(w) == [s.current];
    SingletonStatistics(s.current);
    ExtremaEndpoints(w, th);
    var ext := Extrema(w, th);
    assert ext == [s, s];
    assert ExtremaSteps(ext) == [0.0];
    SingletonStatistics(0.0);
  }

  /** Statistics of a one-element array. */
  lemma SingletonStatistics(x: real)
    ensures SeqMax([x]) == SeqMin([x]) == Mean([x]) == x
    ensures Variance([x]) == 0.0
  {
    assert Sum([x]) == x by { assert [x][..0] == []; }
    assert Mean([x]) == x;
    var dev := seq(1, i requires 0 <= i < 1 => ([x][i] - Mean([x])) * ([x][i] - Mean([x])));
    assert dev[0] == 0.0;
    assert dev == [0.0];
    assert Sum(dev) == 0.0 by { assert dev[..0] == []; }
  }

  /**
    Peak ranking. `num_peaks` counts the detected indices; with no peak the
    mean and all five slots are 0; otherwise the slots hold the peak currents
    in descending order (the head being the largest peak), slots past the
    number of peaks are 0, and the mean peak lies between the smallest peak
    and peak_1.
   */
  lemma PeakRanking(w: Event, th: real, prims: Primitives)
    requires PeaksInRange(prims)
    requires |w| > 0
    ensures var f := BuildFeatures(w, th, prims);
      var pc := PeakCurrents(w, prims);
      && f.numPeaks == |PeakIndices(w, prims)| == |pc|
      && (pc == [] ==> f.meanPeaks == 0.0 && PeakSlots(f) == [0.0, 0.0, 0.0, 0.0, 0.0])
      && (pc != [] ==>
            && (forall k :: 0 <= k < 5 ==> PeakSlots(f)[k] == Ranked(SortDesc(pc), k))
            && (forall a, b :: 0 <= a < b < 5 && b < |pc| ==> PeakSlots(f)[a] >= PeakSlots(f)[b])
            && (forall k :: |pc| <= k < 5 ==> PeakSlots(f)[k] == 0.0)
            && f.peak1 == SeqMax(pc)
            && f.meanPeaks == Mean(pc)
            && SeqMin(pc) <= f.meanPeaks <= f.peak1)
  {
    var pc := PeakCurrents(w, prims);
    PeakFields(w, th, prims);
    if pc != [] {
      RankedSlots(SortDesc(pc));
      SortDescHeadIsMax(pc);
      SortDescWithin(pc);
      MeanSortDesc(pc);
      MeanBounds(pc, SeqMin(pc), SeqMax(pc));
    }
  }

  /** Five slots filled from a descending sequence are descending, and 0 past its end. */
  lemma RankedSlots(peaks: seq<real>)
    requires SortedDesc(peaks)
    ensures var slots := [Ranked(peaks, 0), Ranked(peaks, 1), Ranked(peaks, 2), Ranked(peaks, 3), Ranked(peaks, 4)];
      && (forall k :: 0 <= k < 5 ==> slots[k] == Ranked(peaks, k))
      && (forall a, b :: 0 <= a < b < 5 && b < |peaks| ==> slots[a] >= slots[b])
      && (forall k :: |peaks| <= k < 5 ==> slots[k] == 0.0)
  {
  }

  /** The peak fields of the record, read off `build_features`. */
  lemma PeakFields(w: Event, th: real, prims: Primitives)
    requires PeaksInRange(prims)
    requires |w| > 0
    ensures var f := BuildFeatures(w, th, prims);
      var pc := PeakCurrents(w, prims);
      var peaks := SortDesc(pc);
      && f.numPeaks == |pc|
      && f.meanPeaks == (if pc == [] then 0.0 else Mean(peaks))
      && PeakSlots(f) == if pc == [] then [0.0, 0.0, 0.0, 0.0, 0.0]
                         else [Ranked(peaks, 0), Ranked(peaks, 1), Ranked(peaks, 2), Ranked(peaks, 3), Ranked(peaks, 4)]
  {
  }

  /** Every entry of the descending sort lies between the minimum and the maximum of the input. */
  lemma SortDescWithin(xs: seq<real>)
    requires |xs| > 0
    ensures forall i :: 0 <= i < |xs| ==> SeqMin(xs) <= SortDesc(xs)[i] <= SeqMax(xs)
  {
    var sorted := SortDesc(xs);
    forall i | 0 <= i < |sorted|
      ensures SeqMin(xs) <= sorted[i] <= SeqMax(xs)
    {
      assert sorted[i] in multiset(xs) by { assert sorted[i] in multiset(sorted); }
      var j :| 0 <= j < |xs| && xs[j] == sorted[i];
    }
  }
}
