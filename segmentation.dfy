/**
  Splitting an event into a fixed number of windows and turning each window
  into a feature row (`PolymerDataset._process_event`).
 */
module EventSegmenter {
  import opened Samples
  import opened FeatureBuilder

  function Min(a: nat, b: nat): nat {
    if a < b then a else b
  }

  /**
    The window size `_process_event` uses: `stepsize or ceil(len(event) / timesteps)`.
    A step size of 0 counts as absent, like Python's `or`.
   */
  function StepSize(e: Event, timesteps: nat, stepsize: nat): (s: nat)
    requires stepsize > 0 || timesteps > 0
    ensures s > 0 || |e| == 0
  {
    if stepsize > 0 then stepsize
    else
      CeilDivBounds(|e|, timesteps);
      CeilDiv(|e|, timesteps)
  }

  /** `event[i*s:(i+1)*s]`, with Python clamping both slice bounds to the event's length. */
  function Window(e: Event, i: nat, s: nat): Event {
    e[Min(i * s, |e|)..Min((i + 1) * s, |e|)]
  }

  /** Row i of the segmented event: the features of window i. */
  function SegmentRow(e: Event, i: nat, s: nat, th: real, prims: Primitives): seq<real>
    requires PeaksInRange(prims)
  {
    Row(BuildFeatures(Window(e, i, s), th, prims))
  }

  /** The value of `_process_event(event, timesteps, stepsize, extrema_th)`. */
  function Segment(e: Event, timesteps: nat, stepsize: nat, th: real, prims: Primitives): seq<seq<real>>
    requires PeaksInRange(prims)
    requires stepsize > 0 || timesteps > 0
  {
    var s := StepSize(e, timesteps, stepsize);
    seq(timesteps, i requires 0 <= i < timesteps => SegmentRow(e, i, s, th, prims))
  }

  /** The values of f at 0 .. n-1, built by appending one at a time. */
  function Tabulate(f: nat -> seq<real>, n: nat): (rows: seq<seq<real>>)
    ensures |rows| == n
  {
    if n == 0 then [] else Tabulate(f, n - 1) + [f(n - 1)]
  }

  lemma {:induction false} TabulateIndex(f: nat -> seq<real>, n: nat)
    ensures forall k :: 0 <= k < n ==> Tabulate(f, n)[k] == f(k)
  {
    if n > 0 {
      TabulateIndex(f, n - 1);
    }
  }

  /**
    `_process_event`: one feature row per window. Both sizes 0 would divide
    by zero in the source; callers never pass that.
   */
  method ProcessEvent(e: Event, timesteps: nat, stepsize: nat, th: real, prims: Primitives)
    returns (compressed: seq<seq<real>>)
    requires PeaksInRange(prims)
    requires stepsize > 0 || timesteps > 0
    ensures compressed == Segment(e, timesteps, stepsize, th, prims)
  {
    var step := StepSize(e, timesteps, stepsize);
    ghost var rowOf := (k: nat) => SegmentRow(e, k, step, th, prims);
    compressed := [];
    for i := 0 to timesteps
      invariant compressed == Tabulate(rowOf, i)
    {
      var subEvent := Window(e, i, step);
      var features := BuildFeatures(subEvent, th, prims);
      compressed := compressed + [Row(features)];
    }
    TabulateIndex(rowOf, timesteps);
  }

  /** The segmented event has exactly `timesteps` rows of 17 values, row i holding the features of window i. */
  lemma SegmentShape(e: Event, timesteps: nat, stepsize: nat, th: real, prims: Primitives)
    requires PeaksInRange(prims)
    requires stepsize > 0 || timesteps > 0
    ensures var rows := Segment(e, timesteps, stepsize, th, prims);
      && |rows| == timesteps
      && forall i :: 0 <= i < timesteps ==>
           |rows[i]| == FeatureCount && rows[i] == Row(BuildFeatures(Window(e, i, StepSize(e, timesteps, stepsize)), th, prims))
  {
  }

  /** A window holds at most s samples, and exactly s when it ends inside the event. */
  lemma WindowSize(e: Event, i: nat, s: nat)
    ensures |Window(e, i, s)| <= s
    ensures (i + 1) * s <= |e| ==> |Window(e, i, s)| == s
    ensures i * s >= |e| ==> Window(e, i, s) == []
  {
    assert (i + 1) * s == i * s + s;
  }

  /** Rows whose window starts at or past the end of the event are all zero. */
  lemma TrailingRowsZero(e: Event, timesteps: nat, stepsize: nat, th: real, prims: Primitives, i: nat)
    requires PeaksInRange(prims)
    requires stepsize > 0 || timesteps > 0
    requires i < timesteps
    requires i * StepSize(e, timesteps, stepsize) >= |e|
    ensures var row := Segment(e, timesteps, stepsize, th, prims)[i];
      |row| == FeatureCount && forall c :: 0 <= c < FeatureCount ==> row[c] == 0.0
  {
    WindowSize(e, i, StepSize(e, timesteps, stepsize));
    EmptyWindowIsZero(th, prims);
  }

  /** The first n windows, concatenated. */
  function Joined(e: Event, s: nat, n: nat): Event {
    if n == 0 then [] else Joined(e, s, n - 1) + Window(e, n - 1, s)
  }

  /** The first n windows of size s concatenate to the first n*s samples (or the whole event). */
  lemma {:induction false} JoinedIsPrefix(e: Event, s: nat, n: nat)
    ensures Joined(e, s, n) == e[..Min(n * s, |e|)]
  {
    if n > 0 {
      JoinedIsPrefix(e, s, n - 1);
      assert (n - 1) * s <= n * s by { assert n * s == (n - 1) * s + s; }
      var lo, hi := Min((n - 1) * s, |e|), Min(n * s, |e|);
      assert e[..lo] + e[lo..hi] == e[..hi];
    }
  }

  /** Windows covering at least the event's length reassemble the whole event. */
  lemma WindowsCoverEvent(e: Event, s: nat, n: nat)
    requires n * s >= |e|
    ensures Joined(e, s, n) == e
  {
    JoinedIsPrefix(e, s, n);
  }

  /**
    With the derived step size ceil(len / timesteps), the timesteps windows
    reassemble the whole event: no sample is lost.
   */
  lemma DerivedStepCoversEvent(e: Event, timesteps: nat)
    requires timesteps > 0
    ensures Joined(e, StepSize(e, timesteps, 0), timesteps) == e
  {
    CeilDivBounds(|e|, timesteps);
    var s := StepSize(e, timesteps, 0);
    assert timesteps * s == s * timesteps;
    WindowsCoverEvent(e, s, timesteps);
  }
}
