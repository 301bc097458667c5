/**
  Dataset preparation (`PolymerDataset.preprocess`) and the dataset object.

  Preparation checks its arguments, balances the classes to the size of the
  smallest one, keeps the events whose length lies strictly between 50 and
  10000, derives the number of timesteps from the longest retained event when
  it is not given, segments every retained event and labels it with the index
  of its class. The random permutations drawn per class are a parameter.
 */
module DatasetPreparer {
  import opened Samples
  import opened FeatureBuilder
  import opened EventSegmenter

  /** The ways `preprocess` can fail. */
  datatype PrepError =
    | MissingTimestepsAndStepsize   // ValueError: neither timesteps nor stepsize given
    | NoClasses                     // min() over an empty list of classes
    | NoEventRetained               // np.max over an empty list of lengths

  datatype Result<T> = Success(value: T) | Failure(error: PrepError)

  datatype Outcome = Pass | Fail(error: PrepError)

  /** Prepared data, and the number of timesteps every sample was segmented into. */
  datatype Prepared = Prepared(data: seq<seq<seq<real>>>, labels: seq<nat>, timesteps: nat)

  const MinEventLen: nat := 50
  const MaxEventLen: nat := 10000

  /** The length filter; both bounds are strict. */
  predicate InBounds(e: Event) {
    MinEventLen < |e| < MaxEventLen
  }

  /** p is a permutation of 0 .. n-1 (what `np.random.permutation(n)` returns). */
  ghost predicate IsPermutation(p: seq<nat>, n: nat) {
    && |p| == n
    && (forall k :: 0 <= k < n ==> p[k] < n)
    && (forall a, b :: 0 <= a < b < n ==> p[a] != p[b])
  }

  /** One permutation per class, of that class's size. */
  ghost predicate PermutationsFor(raw: seq<seq<Event>>, perms: seq<seq<nat>>) {
    |perms| == |raw| && forall c :: 0 <= c < |raw| ==> IsPermutation(perms[c], |raw[c]|)
  }

  /** `min([len(d) for d in raw_data])`. */
  function MinSize(raw: seq<seq<Event>>): (m: nat)
    requires |raw| > 0
    ensures forall c :: 0 <= c < |raw| ==> m <= |raw[c]|
    ensures exists c :: 0 <= c < |raw| && m == |raw[c]|
  {
    if |raw| == 1 then |raw[0]|
    else
      var m := MinSize(raw[..|raw| - 1]);
      assert forall c :: 0 <= c < |raw| - 1 ==> raw[..|raw| - 1][c] == raw[c];
      if |raw[|raw| - 1]| < m then |raw[|raw| - 1]| else m
  }

  /** `r_data[indices[:m]]`: the events at the first m positions of the permutation. */
  function Draw(events: seq<Event>, p: seq<nat>, m: nat): (drawn: seq<Event>)
    requires m <= |p|
    requires forall k :: 0 <= k < |p| ==> p[k] < |events|
    ensures |drawn| == m
    ensures forall k :: 0 <= k < m ==> drawn[k] == events[p[k]]
  {
    Pick(events, p[..m])
  }

  /** The balanced classes. */
  function Balance(raw: seq<seq<Event>>, perms: seq<seq<nat>>): (balanced: seq<seq<Event>>)
    requires |raw| > 0
    requires PermutationsFor(raw, perms)
    ensures |balanced| == |raw|
  {
    var m := MinSize(raw);
    seq(|raw|, c requires 0 <= c < |raw| => Draw(raw[c], perms[c], m))
  }

  /** The balancing loop of `preprocess`. */
  method BalanceData(raw: seq<seq<Event>>, perms: seq<seq<nat>>) returns (balanced: seq<seq<Event>>)
    requires |raw| > 0
    requires PermutationsFor(raw, perms)
    ensures balanced == Balance(raw, perms)
  {
    balanced := [];
    var minDataSize := MinSize(raw);
    for c := 0 to |raw|
      invariant |balanced| == c
      invariant forall d :: 0 <= d < c ==> balanced[d] == Draw(raw[d], perms[d], minDataSize)
    {
      var indices := perms[c];
      balanced := balanced + [Draw(raw[c], indices, minDataSize)];
    }
  }

  /**
    Balancing gives every class exactly as many events as the smallest class
    has, drawn from that class at distinct positions.
   */
  lemma BalancedClasses(raw: seq<seq<Event>>, perms: seq<seq<nat>>, c: nat)
    requires |raw| > 0
    requires PermutationsFor(raw, perms)
    requires c < |raw|
    ensures var b := Balance(raw, perms)[c];
      && |b| == MinSize(raw)
      && (forall d :: 0 <= d < |raw| ==> |b| <= |raw[d]|)
      && (forall k :: 0 <= k < |b| ==> perms[c][k] < |raw[c]| && b[k] == raw[c][perms[c][k]])
      && (forall k1, k2 :: 0 <= k1 < k2 < |b| ==> perms[c][k1] != perms[c][k2])
  {
  }

  /** The events of one class that pass the length filter, in their original order. */
  function Filter(events: seq<Event>): (kept: seq<Event>)
    ensures |kept| <= |events|
  {
    if events == [] then []
    else
      var rest := Filter(events[..|events| - 1]);
      var last := events[|events| - 1];
      if InBounds(last) then rest + [last] else rest
  }

  /**
    The filter keeps exactly the events within bounds, in their original
    order: it picks the positions idx, increasing, and a position is picked
    if and only if its event is within bounds.
   */
  lemma {:induction false} FilterSelects(events: seq<Event>) returns (idx: seq<nat>)
    ensures |idx| == |Filter(events)|
    ensures forall k :: 0 <= k < |idx| ==> idx[k] < |events| && Filter(events)[k] == events[idx[k]]
    ensures forall a, b :: 0 <= a < b < |idx| ==> idx[a] < idx[b]
    ensures forall j :: 0 <= j < |events| ==> (InBounds(events[j]) <==> j in idx)
    ensures forall k :: 0 <= k < |idx| ==> InBounds(Filter(events)[k])
  {
    if events == [] {
      idx := [];
    } else {
      var n := |events| - 1;
      var init := events[..n];
      var prev := FilterSelects(init);
      var kept := Filter(events);
      assert forall j :: 0 <= j < n ==> init[j] == events[j];
      if InBounds(events[n]) {
        idx := prev + [n];
        assert kept == Filter(init) + [events[n]];
        forall j | 0 <= j < |events|
          ensures InBounds(events[j]) <==> j in idx
        {
          if j < n {
            assert j in idx <==> j in prev;
          }
        }
      } else {
        idx := prev;
        assert kept == Filter(init);
        forall j | 0 <= j < |events|
          ensures InBounds(events[j]) <==> j in idx
        {
          if j == n {
            assert n !in prev;
          }
        }
      }
    }
  }

  /** The filtering loops of `preprocess`, class by class. */
  method FilterData(balanced: seq<seq<Event>>) returns (normal: seq<seq<Event>>)
    ensures |normal| == |balanced|
    ensures forall c :: 0 <= c < |balanced| ==> normal[c] == Filter(balanced[c])
  {
    normal := [];
    for c := 0 to |balanced|
      invariant |normal| == c
      invariant forall d :: 0 <= d < c ==> normal[d] == Filter(balanced[d])
    {
      var bData := balanced[c];
      var normalEvents: seq<Event> := [];
      for j := 0 to |bData|
        invariant normalEvents == Filter(bData[..j])
      {
        var event := bData[j];
        assert bData[..j + 1][..j] == bData[..j];
        if |event| > MinEventLen && |event| < MaxEventLen {
          normalEvents := normalEvents + [event];
        }
      }
      assert bData[..|bData|] == bData;
      normal := normal + [normalEvents];
    }
  }

  /** The filtered classes. */
  function Normalise(balanced: seq<seq<Event>>): (normal: seq<seq<Event>>)
    ensures |normal| == |balanced|
  {
    seq(|balanced|, c requires 0 <= c < |balanced| => Filter(balanced[c]))
  }

  /** All events, class after class. */
  function FlatEvents(classes: seq<seq<Event>>): seq<Event> {
    if classes == [] then []
    else FlatEvents(classes[..|classes| - 1]) + classes[|classes| - 1]
  }

  /** The class index of every event of FlatEvents, in the same order. */
  function FlatLabels(classes: seq<seq<Event>>): (labels: seq<nat>)
    ensures |labels| == |FlatEvents(classes)|
  {
    if classes == [] then []
    else
      var n := |classes| - 1;
      FlatLabels(classes[..n]) + seq(|classes[n]|, _ => n)
  }

  /** Where class c starts in FlatEvents. */
  function Offset(classes: seq<seq<Event>>, c: nat): nat
    requires c <= |classes|
  {
    |FlatEvents(classes[..c])|
  }

  /**
    Flattening, read backwards: the k-th event carries label c, lies in the
    block of class c, and is the matching event of that class.
   */
  lemma {:induction false} FlatProvenance(classes: seq<seq<Event>>, k: nat)
    requires k < |FlatEvents(classes)|
    ensures var c := FlatLabels(classes)[k];
      && c < |classes|
      && Offset(classes, c) <= k < Offset(classes, c) + |classes[c]|
      && FlatEvents(classes)[k] == classes[c][k - Offset(classes, c)]
  {
    var n := |classes| - 1;
    var init := classes[..n];
    if k < |FlatEvents(init)| {
      FlatProvenance(init, k);
      var c := FlatLabels(init)[k];
      assert FlatLabels(classes)[k] == c;
      assert classes[..c] == init[..c];
    } else {
      assert classes[..n] == init;
    }
  }

  /** Flattening, read forwards: event j of class c sits at Offset(c) + j with label c. */
  lemma {:induction false} FlatBlock(classes: seq<seq<Event>>, c: nat, j: nat)
    requires c < |classes| && j < |classes[c]|
    ensures Offset(classes, c) + j < |FlatEvents(classes)|
    ensures FlatLabels(classes)[Offset(classes, c) + j] == c
    ensures FlatEvents(classes)[Offset(classes, c) + j] == classes[c][j]
  {
    var n := |classes| - 1;
    var init := classes[..n];
    if c < n {
      FlatBlock(init, c, j);
      assert init[..c] == classes[..c];
    } else {
      assert classes[..c] == init;
    }
  }

  /** FlatEvents of a prefix grows by the next class. */
  lemma FlatEventsStep(classes: seq<seq<Event>>, c: nat)
    requires c < |classes|
    ensures FlatEvents(classes[..c + 1]) == FlatEvents(classes[..c]) + classes[c]
    ensures FlatLabels(classes[..c + 1]) == FlatLabels(classes[..c]) + seq(|classes[c]|, _ => c)
  {
    assert classes[..c + 1][..c] == classes[..c];
  }

  /** `[len(event) for n_data in normal_data for event in n_data]`. */
  function Lengths(events: seq<Event>): (lens: seq<nat>)
    ensures |lens| == |events|
    ensures forall k :: 0 <= k < |events| ==> lens[k] == |events[k]|
  {
    seq(|events|, k requires 0 <= k < |events| => |events[k]|)
  }

  /** `np.max` of a non-empty list of lengths. */
  function MaxOf(s: seq<nat>): (m: nat)
    requires |s| > 0
    ensures forall k :: 0 <= k < |s| ==> s[k] <= m
    ensures exists k :: 0 <= k < |s| && s[k] == m
  {
    if |s| == 1 then s[0]
    else
      var m := MaxOf(s[..|s| - 1]);
      assert forall k :: 0 <= k < |s| - 1 ==> s[..|s| - 1][k] == s[k];
      if m < s[|s| - 1] then s[|s| - 1] else m
  }

  /** `timesteps or int(np.ceil(max_event_len / stepsize))`. */
  function ResolveTimesteps(timesteps: nat, stepsize: nat, maxLen: nat): (t: nat)
    requires timesteps > 0 || stepsize > 0
    ensures t > 0 || maxLen == 0
    ensures timesteps == 0 ==> t * stepsize >= maxLen && (t - 1) * stepsize < maxLen
  {
    if timesteps > 0 then timesteps
    else
      CeilDivBounds(maxLen, stepsize);
      CeilDiv(maxLen, stepsize)
  }

  /** The events that survive balancing and filtering, class after class. */
  function Retained(raw: seq<seq<Event>>, perms: seq<seq<nat>>): seq<Event>
    requires |raw| > 0
    requires PermutationsFor(raw, perms)
  {
    FlatEvents(Normalise(Balance(raw, perms)))
  }

  /** The class index of every retained event. */
  function Labels(raw: seq<seq<Event>>, perms: seq<seq<nat>>): (labels: seq<nat>)
    requires |raw| > 0
    requires PermutationsFor(raw, perms)
    ensures |labels| == |Retained(raw, perms)|
  {
    FlatLabels(Normalise(Balance(raw, perms)))
  }

  /** The number of timesteps preparation uses: the given one, or enough steps of stepsize for the longest retained event. */
  function Timesteps(raw: seq<seq<Event>>, timesteps: nat, stepsize: nat, perms: seq<seq<nat>>): nat
    requires timesteps > 0 || stepsize > 0
    requires |raw| > 0
    requires PermutationsFor(raw, perms)
    requires |Retained(raw, perms)| > 0
  {
    ResolveTimesteps(timesteps, stepsize, MaxOf(Lengths(Retained(raw, perms))))
  }

  /** f applied to every event, appending one result at a time. */
  function MapEvents(f: Event -> seq<seq<real>>, events: seq<Event>): (r: seq<seq<seq<real>>>)
    ensures |r| == |events|
  {
    if events == [] then [] else MapEvents(f, events[..|events| - 1]) + [f(events[|events| - 1])]
  }

  lemma {:induction false} MapEventsIndex(f: Event -> seq<seq<real>>, events: seq<Event>, k: nat)
    requires k < |events|
    ensures MapEvents(f, events)[k] == f(events[k])
  {
    var n := |events| - 1;
    if k < n {
      MapEventsIndex(f, events[..n], k);
    }
  }

  lemma MapEventsAppend(f: Event -> seq<seq<real>>, events: seq<Event>, e: Event)
    ensures MapEvents(f, events + [e]) == MapEvents(f, events) + [f(e)]
  {
    assert (events + [e])[..|events|] == events;
  }

  lemma {:induction false} MapEventsConcat(f: Event -> seq<seq<real>>, xs: seq<Event>, ys: seq<Event>)
    ensures MapEvents(f, xs + ys) == MapEvents(f, xs) + MapEvents(f, ys)
  {
    if ys != [] {
      var n := |ys| - 1;
      MapEventsConcat(f, xs, ys[..n]);
      assert (xs + ys)[..|xs| + n] == xs + ys[..n];
    } else {
      assert xs + ys == xs;
    }
  }

  /** `_process_event` with fixed sizes, threshold and primitives, as a function of the event. */
  function Segmenter(timesteps: nat, stepsize: nat, th: real, prims: Primitives): Event -> seq<seq<real>>
    requires PeaksInRange(prims)
    requires stepsize > 0 || timesteps > 0
  {
    e => Segment(e, timesteps, stepsize, th, prims)
  }

  /** The segmented samples, one per event. */
  function SegmentAll(events: seq<Event>, timesteps: nat, stepsize: nat, th: real, prims: Primitives)
    : (data: seq<seq<seq<real>>>)
    requires PeaksInRange(prims)
    requires stepsize > 0 || timesteps > 0
    ensures |data| == |events|
  {
    MapEvents(Segmenter(timesteps, stepsize, th, prims), events)
  }

  /** Sample k is the segmentation of event k. */
  lemma SegmentAllIndex(events: seq<Event>, timesteps: nat, stepsize: nat, th: real, prims: Primitives, k: nat)
    requires PeaksInRange(prims)
    requires stepsize > 0 || timesteps > 0
    requires k < |events|
    ensures SegmentAll(events, timesteps, stepsize, th, prims)[k] == Segment(events[k], timesteps, stepsize, th, prims)
  {
    MapEventsIndex(Segmenter(timesteps, stepsize, th, prims), events, k);
  }

  /** The outcome of `preprocess`: an error, or the data, labels and resolved timesteps. */
  function Prepare(raw: seq<seq<Event>>, timesteps: nat, stepsize: nat, th: real,
                   prims: Primitives, perms: seq<seq<nat>>): Result<Prepared>
    requires PeaksInRange(prims)
    requires PermutationsFor(raw, perms)
  {
    if timesteps == 0 && stepsize == 0 then Failure(MissingTimestepsAndStepsize)
    else if |raw| == 0 then Failure(NoClasses)
    else if |Retained(raw, perms)| == 0 then Failure(NoEventRetained)
    else
      var t := Timesteps(raw, timesteps, stepsize, perms);
      Success(Prepared(SegmentAll(Retained(raw, perms), t, stepsize, th, prims), Labels(raw, perms), t))
  }

  /** The segmentation loops of `preprocess`: every retained event, labelled with its class. */
  method ProcessAll(normal: seq<seq<Event>>, timesteps: nat, stepsize: nat, th: real, prims: Primitives)
    returns (data: seq<seq<seq<real>>>, labels: seq<nat>)
    requires PeaksInRange(prims)
    requires stepsize > 0 || timesteps > 0
    ensures data == SegmentAll(FlatEvents(normal), timesteps, stepsize, th, prims)
    ensures labels == FlatLabels(normal)
  {
    ghost var f := Segmenter(timesteps, stepsize, th, prims);
    data, labels := [], [];
    for c := 0 to |normal|
      invariant data == MapEvents(f, FlatEvents(normal[..c]))
      invariant labels == FlatLabels(normal[..c])
    {
      var rawData := normal[c];
      ghost var doneData, doneLabels := data, labels;
      for j := 0 to |rawData|
        invariant data == doneData + MapEvents(f, rawData[..j])
        invariant labels == doneLabels + seq(j, _ => c)
      {
        var processedEvent := ProcessEvent(rawData[j], timesteps, stepsize, th, prims);
        MapEventsAppend(f, rawData[..j], rawData[j]);
        assert rawData[..j + 1] == rawData[..j] + [rawData[j]];
        data := data + [processedEvent];
        labels := labels + [c];
      }
      assert rawData[..|rawData|] == rawData;
      FlatEventsStep(normal, c);
      MapEventsConcat(f, FlatEvents(normal[..c]), rawData);
    }
    assert normal[..|normal|] == normal;
  }

  /**
    `preprocess` fails exactly in three cases: neither size is given; there
    is no class; or no balanced event passes the length filter (whether or not
    timesteps was given).
   */
  lemma PrepareFailures(raw: seq<seq<Event>>, timesteps: nat, stepsize: nat, th: real,
                        prims: Primitives, perms: seq<seq<nat>>)
    requires PeaksInRange(prims)
    requires PermutationsFor(raw, perms)
    ensures Prepare(raw, timesteps, stepsize, th, prims, perms) == Failure(MissingTimestepsAndStepsize)
      <==> timesteps == 0 && stepsize == 0
    ensures Prepare(raw, timesteps, stepsize, th, prims, perms) == Failure(NoClasses)
      <==> (timesteps > 0 || stepsize > 0) && |raw| == 0
    ensures Prepare(raw, timesteps, stepsize, th, prims, perms) == Failure(NoEventRetained)
      <==> && (timesteps > 0 || stepsize > 0)
           && |raw| > 0
           && forall c, k :: 0 <= c < |raw| && 0 <= k < MinSize(raw) ==> !InBounds(raw[c][perms[c][k]])
  {
    if (timesteps > 0 || stepsize > 0) && |raw| > 0 {
      NothingRetainedIff(raw, perms);
    }
  }

  /** No event is retained exactly when no balanced event passes the length filter. */
  lemma NothingRetainedIff(raw: seq<seq<Event>>, perms: seq<seq<nat>>)
    requires |raw| > 0
    requires PermutationsFor(raw, perms)
    ensures |Retained(raw, perms)| == 0
      <==> forall c, k :: 0 <= c < |raw| && 0 <= k < MinSize(raw) ==> !InBounds(raw[c][perms[c][k]])
  {
    var balanced := Balance(raw, perms);
    var normal := Normalise(balanced);
    if |FlatEvents(normal)| == 0 {
      forall c, k | 0 <= c < |raw| && 0 <= k < MinSize(raw)
        ensures !InBounds(raw[c][perms[c][k]])
      {
        NoneKept(balanced, normal, c, k);
      }
    } else {
      RetainedProvenance(raw, perms, 0);
    }
  }

  lemma NoneKept(balanced: seq<seq<Event>>, normal: seq<seq<Event>>, c: nat, k: nat)
    requires normal == Normalise(balanced)
    requires |FlatEvents(normal)| == 0
    requires c < |balanced| && k < |balanced[c]|
    ensures !InBounds(balanced[c][k])
  {
    var idx := FilterSelects(balanced[c]);
    if |normal[c]| > 0 {
      FlatBlock(normal, c, 0);
    }
  }

  /**
    Shape of a successful result: one label per sample, at least one sample,
    every sample has exactly `timesteps` rows (the given value when there is
    one, and at least 1) of 17 features, and every label is a class index.
   */
  lemma PrepareShape(raw: seq<seq<Event>>, timesteps: nat, stepsize: nat, th: real,
                     prims: Primitives, perms: seq<seq<nat>>)
    requires PeaksInRange(prims)
    requires PermutationsFor(raw, perms)
    requires Prepare(raw, timesteps, stepsize, th, prims, perms).Success?
    ensures var p := Prepare(raw, timesteps, stepsize, th, prims, perms).value;
      && |p.data| == |p.labels| == |Retained(raw, perms)| > 0
      && p.timesteps == Timesteps(raw, timesteps, stepsize, perms) >= 1
      && (timesteps > 0 ==> p.timesteps == timesteps)
      && (forall k :: 0 <= k < |p.labels| ==> p.labels[k] < |raw|)
      && (forall k :: 0 <= k < |p.data| ==> |p.data[k]| == p.timesteps)
      && (forall k, r :: 0 <= k < |p.data| && 0 <= r < |p.data[k]| ==> |p.data[k][r]| == FeatureCount)
  {
    var p := Prepare(raw, timesteps, stepsize, th, prims, perms).value;
    forall k | 0 <= k < |p.labels|
      ensures p.labels[k] < |raw|
      ensures |p.data[k]| == p.timesteps
      ensures forall r :: 0 <= r < |p.data[k]| ==> |p.data[k][r]| == FeatureCount
    {
      RetainedProvenance(raw, perms, k);
      PrepareSuccess(raw, timesteps, stepsize, th, prims, perms, k);
      SegmentShape(Retained(raw, perms)[k], p.timesteps, stepsize, th, prims);
    }
    if timesteps == 0 {
      var maxLen := MaxOf(Lengths(Retained(raw, perms)));
      RetainedInBounds(raw, perms, 0);
      assert maxLen >= |Retained(raw, perms)[0]|;
      CeilDivBounds(maxLen, stepsize);
    }
  }

  /** Every retained event passes the length filter. */
  lemma RetainedInBounds(raw: seq<seq<Event>>, perms: seq<seq<nat>>, k: nat)
    requires |raw| > 0
    requires PermutationsFor(raw, perms)
    requires k < |Retained(raw, perms)|
    ensures InBounds(Retained(raw, perms)[k])
  {
    RetainedProvenance(raw, perms, k);
  }

  /**
    Retained event k carries the label c of a class, passes the length filter,
    and is an event that balancing drew from class c (at one of the first
    MinSize positions of c's permutation).
   */
  lemma RetainedProvenance(raw: seq<seq<Event>>, perms: seq<seq<nat>>, k: nat)
    requires |raw| > 0
    requires PermutationsFor(raw, perms)
    requires k < |Retained(raw, perms)|
    ensures var c := Labels(raw, perms)[k];
      && c < |raw|
      && InBounds(Retained(raw, perms)[k])
      && exists j :: 0 <= j < MinSize(raw) && Retained(raw, perms)[k] == raw[c][perms[c][j]]
  {
    var balanced := Balance(raw, perms);
    var normal := Normalise(balanced);
    FlatProvenance(normal, k);
    var c := FlatLabels(normal)[k];
    var idx := FilterSelects(balanced[c]);
    var j := idx[k - Offset(normal, c)];
    assert Retained(raw, perms)[k] == balanced[c][j];
    assert balanced[c][j] == raw[c][perms[c][j]];
  }

  /**
    Conversely, every event that balancing draws from class c and that
    passes the length filter is retained with label c.
   */
  lemma RetainedComplete(raw: seq<seq<Event>>, perms: seq<seq<nat>>, c: nat, j: nat)
    requires |raw| > 0
    requires PermutationsFor(raw, perms)
    requires c < |raw|
    requires j < MinSize(raw) && InBounds(raw[c][perms[c][j]])
    ensures exists k ::
              0 <= k < |Retained(raw, perms)| && Labels(raw, perms)[k] == c && Retained(raw, perms)[k] == raw[c][perms[c][j]]
  {
    var balanced := Balance(raw, perms);
    var normal := Normalise(balanced);
    var idx := FilterSelects(balanced[c]);
    assert balanced[c][j] == raw[c][perms[c][j]];
    assert j in idx;
    var i :| 0 <= i < |idx| && idx[i] == j;
    FlatBlock(normal, c, i);
    var k := Offset(normal, c) + i;
    assert Labels(raw, perms)[k] == c;
  }

  /** A successful preparation segments the retained events with the resolved timesteps and labels them. */
  lemma PrepareSuccess(raw: seq<seq<Event>>, timesteps: nat, stepsize: nat, th: real,
                       prims: Primitives, perms: seq<seq<nat>>, k: nat)
    requires PeaksInRange(prims)
    requires PermutationsFor(raw, perms)
    requires Prepare(raw, timesteps, stepsize, th, prims, perms).Success?
    requires k < |Prepare(raw, timesteps, stepsize, th, prims, perms).value.data|
    ensures var p := Prepare(raw, timesteps, stepsize, th, prims, perms).value;
      && k < |Retained(raw, perms)|
      && p.labels[k] == Labels(raw, perms)[k]
      && p.data[k] == Segment(Retained(raw, perms)[k], p.timesteps, stepsize, th, prims)
  {
    var t := Timesteps(raw, timesteps, stepsize, perms);
    SegmentAllIndex(Retained(raw, perms), t, stepsize, th, prims, k);
  }

  /**
    Provenance of sample k: its label c is a class index, and it is the
    segmentation of an event within the length bounds that balancing drew
    from class c (at one of the first MinSize positions of c's permutation).
   */
  lemma SampleProvenance(raw: seq<seq<Event>>, timesteps: nat, stepsize: nat, th: real,
                         prims: Primitives, perms: seq<seq<nat>>, k: nat)
    requires PeaksInRange(prims)
    requires PermutationsFor(raw, perms)
    requires Prepare(raw, timesteps, stepsize, th, prims, perms).Success?
    requires k < |Prepare(raw, timesteps, stepsize, th, prims, perms).value.data|
    ensures var p := Prepare(raw, timesteps, stepsize, th, prims, perms).value;
      var c := p.labels[k];
      && c < |raw|
      && exists j :: 0 <= j < MinSize(raw) &&
           var e := raw[c][perms[c][j]];
           InBounds(e) && p.data[k] == Segment(e, p.timesteps, stepsize, th, prims)
  {
    PrepareSuccess(raw, timesteps, stepsize, th, prims, perms, k);
    RetainedProvenance(raw, perms, k);
  }

  /**
    Conversely, every event that survives balancing and filtering in class c
    becomes a sample labelled c.
   */
  lemma EveryRetainedEventLabelled(raw: seq<seq<Event>>, timesteps: nat, stepsize: nat, th: real,
                                   prims: Primitives, perms: seq<seq<nat>>, c: nat, j: nat)
    requires PeaksInRange(prims)
    requires PermutationsFor(raw, perms)
    requires Prepare(raw, timesteps, stepsize, th, prims, perms).Success?
    requires c < |raw|
    requires j < MinSize(raw) && InBounds(raw[c][perms[c][j]])
    ensures var p := Prepare(raw, timesteps, stepsize, th, prims, perms).value;
      exists k :: 0 <= k < |p.data| && p.labels[k] == c &&
        p.data[k] == Segment(raw[c][perms[c][j]], p.timesteps, stepsize, th, prims)
  {
    RetainedComplete(raw, perms, c, j);
    var k :| 0 <= k < |Retained(raw, perms)| &&
      Labels(raw, perms)[k] == c && Retained(raw, perms)[k] == raw[c][perms[c][j]];
    PrepareSuccess(raw, timesteps, stepsize, th, prims, perms, k);
  }

  /** t windows of size s hold every event, and reassemble it. */
  ghost predicate WindowsCover(events: seq<Event>, s: nat, t: nat) {
    forall k :: 0 <= k < |events| ==> |events[k]| <= t * s && Joined(events[k], s, t) == events[k]
  }

  /** t - 1 windows of size s are too few for some event. */
  ghost predicate NoFewerWindows(events: seq<Event>, s: nat, t: nat) {
    exists k :: 0 <= k < |events| && (t - 1) * s < |events[k]|
  }

  /**
    With timesteps derived from the step size, the windows of every retained
    event cover it entirely: its length is at most timesteps * stepsize and
    the windows reassemble it; and timesteps is the least value with that
    property for the longest event.
   */
  lemma DerivedTimestepsCover(raw: seq<seq<Event>>, stepsize: nat, perms: seq<seq<nat>>)
    requires stepsize > 0
    requires |raw| > 0
    requires PermutationsFor(raw, perms)
    requires |Retained(raw, perms)| > 0
    ensures WindowsCover(Retained(raw, perms), stepsize, Timesteps(raw, 0, stepsize, perms))
    ensures NoFewerWindows(Retained(raw, perms), stepsize, Timesteps(raw, 0, stepsize, perms))
  {
    StepsCoverEvents(Retained(raw, perms), stepsize);
  }

  /** ceil(longest / stepsize) windows of size stepsize cover every event, and no fewer cover the longest. */
  lemma StepsCoverEvents(events: seq<Event>, stepsize: nat)
    requires stepsize > 0
    requires |events| > 0
    ensures WindowsCover(events, stepsize, CeilDiv(MaxOf(Lengths(events)), stepsize))
    ensures NoFewerWindows(events, stepsize, CeilDiv(MaxOf(Lengths(events)), stepsize))
  {
    var maxLen := MaxOf(Lengths(events));
    var t := CeilDiv(maxLen, stepsize);
    CeilDivBounds(maxLen, stepsize);
    forall k | 0 <= k < |events|
      ensures |events[k]| <= t * stepsize && Joined(events[k], stepsize, t) == events[k]
    {
      assert |events[k]| == Lengths(events)[k];
      WindowsCoverEvent(events[k], stepsize, t);
    }
    var k0 :| 0 <= k0 < |events| && Lengths(events)[k0] == maxLen;
    assert (t - 1) * stepsize < |events[k0]|;
  }

  /** The dataset object: the raw classes it was built from, and the prepared samples and labels. */
  class PolymerDataset {
    const rawData: seq<seq<Event>>
    var data: seq<seq<seq<real>>>
    var labels: seq<nat>

    /** Samples and labels line up, every sample has the same number of 17-wide rows, labels are class indices. */
    ghost predicate Valid()
      reads this
    {
      && |data| == |labels|
      && (forall k :: 0 <= k < |labels| ==> labels[k] < |rawData|)
      && (forall k :: 0 <= k < |data| ==> |data[k]| == |data[0]|)
      && (forall k, r :: 0 <= k < |data| && 0 <= r < |data[k]| ==> |data[k][r]| == FeatureCount)
    }

    /** The classes as loaded; preparation is the separate call Preprocess. */
    constructor (rawData: seq<seq<Event>>)
      ensures this.rawData == rawData && data == [] && labels == []
      ensures Valid()
    {
      this.rawData := rawData;
      data := [];
      labels := [];
    }

    /** `preprocess`: on success the prepared samples replace data and labels; on failure nothing changes. */
    method Preprocess(timesteps: nat, stepsize: nat, th: real, prims: Primitives, perms: seq<seq<nat>>)
      returns (outcome: Outcome)
      requires PeaksInRange(prims)
      requires PermutationsFor(rawData, perms)
      requires Valid()
      modifies this
      ensures Valid()
      ensures outcome.Pass? <==> Prepare(rawData, timesteps, stepsize, th, prims, perms).Success?
      ensures outcome.Fail? ==>
        && Prepare(rawData, timesteps, stepsize, th, prims, perms) == Failure(outcome.error)
        && data == old(data) && labels == old(labels)
      ensures outcome.Pass? ==>
        && data == Prepare(rawData, timesteps, stepsize, th, prims, perms).value.data
        && labels == Prepare(rawData, timesteps, stepsize, th, prims, perms).value.labels
        && Valid() && |data| > 0
        && |data[0]| == Prepare(rawData, timesteps, stepsize, th, prims, perms).value.timesteps >= 1
    {
      if timesteps == 0 && stepsize == 0 {
        return Fail(MissingTimestepsAndStepsize);
      }
      if |rawData| == 0 {
        return Fail(NoClasses);
      }
      var balancedData := BalanceData(rawData, perms);
      var normalData := FilterData(balancedData);
      assert normalData == Normalise(balancedData);
      var lens := Lengths(FlatEvents(normalData));
      if |lens| == 0 {
        return Fail(NoEventRetained);
      }
      var maxEventLen := MaxOf(lens);
      var t := ResolveTimesteps(timesteps, stepsize, maxEventLen);
      var d, l := ProcessAll(normalData, t, stepsize, th, prims);
      PrepareShape(rawData, timesteps, stepsize, th, prims, perms);
      data, labels := d, l;
      outcome := Pass;
    }

    /** `__len__`: the number of samples. */
    function Len(): (n: nat)
      reads this
      requires Valid()
      ensures n == |data| == |labels|
    {
      |labels|
    }

    /** `__getitem__`, with Python's negative indices counting from the end. */
    function GetItem(idx: int): (item: (seq<seq<real>>, nat))
      reads this
      requires Valid()
      requires -|labels| <= idx < |labels|
      ensures var k := if idx < 0 then idx + |labels| else idx;
        item == (data[k], labels[k])
      ensures item.1 < |rawData|
      ensures forall r :: 0 <= r < |item.0| ==> |item.0[r]| == FeatureCount
    {
      var k := if idx < 0 then idx + |labels| else idx;
      (data[k], labels[k])
    }

    /** `num_features`: the width of a row, always 17. */
    function NumFeatures(): (n: nat)
      reads this
      requires Valid()
      requires |data| > 0 && |data[0]| > 0
      ensures n == FeatureCount
    {
      |data[0][0]|
    }
  }
}
