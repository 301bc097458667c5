/**
  Extrema extraction (`find_extrema`) and consecutive current differences
  (`find_current_diffs`).

  `find_extrema` is a single greedy pass: it keeps the first sample, then each
  interior sample that is a turning point of the current and moves more than
  the threshold away from the last kept sample, then the last sample. The
  specification `Kept` replays that pass over sample indices; the method
  `FindExtrema` is the loop itself, proved to produce `Extrema`.
 */
module ExtremaExtractor {
  import opened Samples

  /** The product test of the source: both neighbours lie on the same side of sample i (or level with it). */
  predicate IsTurningPoint(e: Event, i: int)
    requires 0 < i < |e| - 1
  {
    SameSign(e[i].current - e[i - 1].current, e[i].current - e[i + 1].current)
  }

  /**
    The sign test behind `prev_change * next_change >= 0`, stated without the
    product; ProductSign shows the two agree.
   */
  predicate SameSign(prevChange: real, nextChange: real) {
    (prevChange >= 0.0 && nextChange >= 0.0) || (prevChange <= 0.0 && nextChange <= 0.0)
  }

  lemma ProductSign(a: real, b: real)
    ensures a * b >= 0.0 <==> SameSign(a, b)
  {
    if a > 0.0 && b < 0.0 {
      assert a * b < 0.0;
    } else if a < 0.0 && b > 0.0 {
      assert a * b < 0.0;
    } else if a >= 0.0 && b >= 0.0 {
      assert a * b >= 0.0;
    } else {
      assert a * b >= 0.0;
    }
  }

  /** The scan accepts interior sample j when the last kept sample is p. */
  predicate Accepts(e: Event, th: real, p: nat, j: int)
    requires p < |e|
    requires 0 < j < |e| - 1
  {
    IsTurningPoint(e, j) && Abs(e[j].current - e[p].current) > th
  }

  /** Exclusive end of the interior scan `range(1, len(event) - 1)`, never below its start. */
  function ScanEnd(e: Event): nat
    requires |e| >= 1
  {
    if |e| >= 2 then |e| - 1 else 1
  }

  /** Indices kept after the scan has looked at interior indices 1 .. i-1. */
  function Kept(e: Event, th: real, i: nat): (idx: seq<nat>)
    requires |e| >= 1
    requires 1 <= i <= ScanEnd(e)
    ensures 1 <= |idx| <= i && idx[0] == 0
    ensures forall k :: 0 <= k < |idx| ==> idx[k] < i
    decreases i
  {
    if i == 1 then [0]
    else
      var idx := Kept(e, th, i - 1);
      if Accepts(e, th, Last(idx), i - 1) then idx + [i - 1] else idx
  }

  function Last(idx: seq<nat>): nat
    requires |idx| > 0
  {
    idx[|idx| - 1]
  }

  /** No interior index strictly between p and q is accepted against p. */
  ghost predicate NoneSkipped(e: Event, th: real, p: nat, q: int) {
    p < |e| && forall j :: p < j < q && j < |e| - 1 ==> !Accepts(e, th, p, j)
  }

  /** Entry k of idx is an interior index accepted against entry k-1, with nothing accepted between them. */
  ghost predicate KeptPair(e: Event, th: real, idx: seq<nat>, k: int) {
    && 0 < k < |idx|
    && idx[k - 1] < idx[k] < |e| - 1
    && Accepts(e, th, idx[k - 1], idx[k])
    && NoneSkipped(e, th, idx[k - 1], idx[k])
  }

  /**
    The kept indices are characterised completely: they increase, each is
    accepted against its predecessor, and no index skipped in between (or
    after the last kept one) would have been accepted.
   */
  lemma {:induction false} KeptCharacterised(e: Event, th: real, i: nat)
    requires |e| >= 1
    requires 1 <= i <= ScanEnd(e)
    ensures forall k :: 0 < k < |Kept(e, th, i)| ==> KeptPair(e, th, Kept(e, th, i), k)
    ensures NoneSkipped(e, th, Last(Kept(e, th, i)), i)
  {
    if i > 1 {
      KeptCharacterised(e, th, i - 1);
      var prev, idx := Kept(e, th, i - 1), Kept(e, th, i);
      if Accepts(e, th, Last(prev), i - 1) {
        assert idx == prev + [i - 1];
        forall k | 0 < k < |idx|
          ensures KeptPair(e, th, idx, k)
        {
          if k < |prev| {
            assert KeptPair(e, th, prev, k);
            assert idx[k - 1] == prev[k - 1] && idx[k] == prev[k];
          } else {
            assert idx[k - 1] == Last(prev) && idx[k] == i - 1;
          }
        }
      } else {
        assert idx == prev;
      }
    }
  }

  /** Indices of the samples `find_extrema` returns: the kept ones, then the last sample. */
  function ExtremaIndices(e: Event, th: real): (idx: seq<nat>)
    requires |e| >= 1
  {
    Kept(e, th, ScanEnd(e)) + [|e| - 1]
  }

  /**
    The samples the scan has kept after looking at interior indices
    1 .. i-1: the list `extrema` of the source's loop, compared against its
    last entry.
   */
  function KeptSamples(e: Event, th: real, i: nat): (r: Event)
    requires |e| >= 1
    requires 1 <= i <= ScanEnd(e)
    ensures |r| >= 1 && r[0] == e[0]
    decreases i
  {
    if i == 1 then [e[0]]
    else
      var r := KeptSamples(e, th, i - 1);
      if IsTurningPoint(e, i - 1) && Abs(e[i - 1].current - r[|r| - 1].current) > th then r + [e[i - 1]] else r
  }

  /** The kept samples are exactly the samples at the kept indices. */
  lemma {:induction false} KeptSamplesPicked(e: Event, th: real, i: nat)
    requires |e| >= 1
    requires 1 <= i <= ScanEnd(e)
    ensures KeptSamples(e, th, i) == Pick(e, Kept(e, th, i))
  {
    if i > 1 {
      KeptSamplesPicked(e, th, i - 1);
      var prev := Kept(e, th, i - 1);
      var r := KeptSamples(e, th, i - 1);
      assert r[|r| - 1] == e[Last(prev)];
      if Accepts(e, th, Last(prev), i - 1) {
        assert Kept(e, th, i) == prev + [i - 1];
        assert KeptSamples(e, th, i) == r + [e[i - 1]];
        PickAppend(e, prev, i - 1);
      } else {
        assert Kept(e, th, i) == prev;
        assert KeptSamples(e, th, i) == r;
      }
    }
  }

  /** The value of `find_extrema(event, extrema_th)`. */
  function Extrema(e: Event, th: real): (r: Event)
    requires |e| >= 1
    ensures |r| == |ExtremaIndices(e, th)|
  {
    KeptSamplesPicked(e, th, ScanEnd(e));
    KeptSamples(e, th, ScanEnd(e)) + [e[|e| - 1]]
  }

  /** The output is the event read at ExtremaIndices. */
  lemma ExtremaPicked(e: Event, th: real)
    requires |e| >= 1
    ensures Extrema(e, th) == Pick(e, ExtremaIndices(e, th))
  {
    KeptSamplesPicked(e, th, ScanEnd(e));
    PickAppend(e, Kept(e, th, ScanEnd(e)), |e| - 1);
  }

  /** `find_extrema`: the greedy loop of the source. */
  method FindExtrema(e: Event, th: real) returns (extrema: Event)
    requires |e| >= 1
    ensures extrema == Extrema(e, th)
  {
    extrema := [e[0]];
    var i := 1;
    while i < |e| - 1
      invariant 1 <= i <= ScanEnd(e)
      invariant extrema == KeptSamples(e, th, i)
    {
      var prevChange := e[i].current - e[i - 1].current;
      var nextChange := e[i].current - e[i + 1].current;
      ProductSign(prevChange, nextChange);
      if prevChange * nextChange >= 0.0 {
        var extremaChange := Abs(e[i].current - extrema[|extrema| - 1].current);
        if extremaChange > th {
          extrema := extrema + [e[i]];
        }
      }
      i := i + 1;
    }
    extrema := extrema + [e[|e| - 1]];
  }

  lemma PickAppend(e: Event, idx: seq<nat>, j: nat)
    requires forall k :: 0 <= k < |idx| ==> idx[k] < |e|
    requires j < |e|
    ensures Pick(e, idx + [j]) == Pick(e, idx) + [e[j]]
  {
  }

  /**
    The output starts with the first sample and ends with the last one, so it
    has at least two entries (a one-sample event yields that sample twice) and
    at most max(2, n).
   */
  lemma ExtremaEndpoints(e: Event, th: real)
    requires |e| >= 1
    ensures var r := Extrema(e, th);
      && 2 <= |r| <= (if |e| < 2 then 2 else |e|)
      && r[0] == e[0]
      && r[|r| - 1] == e[|e| - 1]
  {
    ExtremaPicked(e, th);
    assert ExtremaIndices(e, th)[0] == 0;
  }

  /**
    Every interior output entry is an original interior sample that is a
    turning point and differs from the previous output entry by more than the
    threshold; output entries keep the order of the event.
   */
  lemma ExtremaInterior(e: Event, th: real, k: nat)
    requires |e| >= 1
    requires 0 < k < |Extrema(e, th)| - 1
    ensures var idx := ExtremaIndices(e, th);
      && 0 < idx[k] < |e| - 1
      && idx[k - 1] < idx[k]
      && Extrema(e, th)[k] == e[idx[k]]
      && IsTurningPoint(e, idx[k])
      && Abs(Extrema(e, th)[k].current - Extrema(e, th)[k - 1].current) > th
  {
    var kept := Kept(e, th, ScanEnd(e));
    ExtremaPicked(e, th);
    KeptCharacterised(e, th, ScanEnd(e));
    assert k < |kept|;
    assert KeptPair(e, th, kept, k);
  }

  /** In a two-sample-or-longer event the output indices are strictly increasing. */
  lemma ExtremaOrdered(e: Event, th: real, k: nat)
    requires |e| >= 2
    requires 0 < k < |ExtremaIndices(e, th)|
    ensures ExtremaIndices(e, th)[k - 1] < ExtremaIndices(e, th)[k]
  {
    var kept := Kept(e, th, ScanEnd(e));
    KeptCharacterised(e, th, ScanEnd(e));
    if k == |kept| {
      assert kept[k - 1] < ScanEnd(e);
    } else {
      assert KeptPair(e, th, kept, k);
    }
  }

  /**
    Conversely, an interior sample the output skips, lying after output entry
    k-1 and before entry k, is either no turning point or within the threshold
    of entry k-1: the scan drops nothing it should keep.
   */
  lemma ExtremaSkipped(e: Event, th: real, k: nat, j: nat)
    requires |e| >= 2
    requires 0 < k < |ExtremaIndices(e, th)|
    requires ExtremaIndices(e, th)[k - 1] < j < ExtremaIndices(e, th)[k]
    ensures !(IsTurningPoint(e, j) && Abs(e[j].current - Extrema(e, th)[k - 1].current) > th)
  {
    var kept := Kept(e, th, ScanEnd(e));
    ExtremaPicked(e, th);
    KeptCharacterised(e, th, ScanEnd(e));
    if k < |kept| {
      assert KeptPair(e, th, kept, k);
    } else {
      assert NoneSkipped(e, th, Last(kept), ScanEnd(e));
    }
    assert !Accepts(e, th, kept[k - 1], j);
  }

  /**
    Raising the threshold can make the output longer: with currents
    -3, 0, -2, 2, -2, -2 a threshold of 2 keeps three samples and a threshold
    of 3 keeps four, because the smaller threshold keeps the 0 and the 0 then
    masks the 2.
   */
  lemma ThresholdNotMonotone()
    ensures var e := [Sample(0.0, -3.0), Sample(1.0, 0.0), Sample(2.0, -2.0),
                      Sample(3.0, 2.0), Sample(4.0, -2.0), Sample(5.0, -2.0)];
      |Extrema(e, 2.0)| == 3 && |Extrema(e, 3.0)| == 4
  {
    var e := [Sample(0.0, -3.0), Sample(1.0, 0.0), Sample(2.0, -2.0),
              Sample(3.0, 2.0), Sample(4.0, -2.0), Sample(5.0, -2.0)];
    assert KeptSamples(e, 2.0, 2) == [e[0], e[1]];
    assert KeptSamples(e, 2.0, 3) == [e[0], e[1]];
    assert KeptSamples(e, 2.0, 4) == [e[0], e[1]];
    assert KeptSamples(e, 2.0, 5) == [e[0], e[1]];
    assert KeptSamples(e, 3.0, 2) == [e[0]];
    assert KeptSamples(e, 3.0, 3) == [e[0]];
    assert KeptSamples(e, 3.0, 4) == [e[0], e[3]];
    assert KeptSamples(e, 3.0, 5) == [e[0], e[3], e[4]];
  }

  /** `find_current_diffs`: differences of consecutive currents. */
  method FindCurrentDiffs(e: Event) returns (diffs: seq<real>)
    ensures |diffs| == if |e| == 0 then 0 else |e| - 1
    ensures forall i :: 0 <= i < |diffs| ==> diffs[i] == e[i + 1].current - e[i].current
  {
    diffs := [];
    var i := 1;
    while i < |e|
      invariant 1 <= i <= if |e| == 0 then 1 else |e|
      invariant |diffs| == i - 1
      invariant forall k :: 0 <= k < |diffs| ==> diffs[k] == e[k + 1].current - e[k].current
    {
      diffs := diffs + [e[i].current - e[i - 1].current];
      i := i + 1;
    }
  }

  /** The differences telescope: they add up to the net change of the current. */
  lemma {:induction false} CurrentDiffsTelescope(e: Event, diffs: seq<real>)
    requires |e| >= 1 && |diffs| == |e| - 1
    requires forall i :: 0 <= i < |diffs| ==> diffs[i] == e[i + 1].current - e[i].current
    ensures Sum(diffs) == e[|e| - 1].current - e[0].current
  {
    if |diffs| > 0 {
      CurrentDiffsTelescope(e[..|e| - 1], diffs[..|diffs| - 1]);
    }
  }
}
