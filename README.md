# Polymer translocation events: feature extraction and dataset preparation

This project models the data pipeline of `mete/utils.py`. An *event* is a
trace of (time, current) samples recorded while a polymer passes through a
nanopore. The pipeline has five stages:

- it extracts the turning points of the current (`find_extrema`) and the
  consecutive current differences (`find_current_diffs`);
- it summarises a window of samples as a record of 17 features
  (`build_features`);
- it cuts an event into `timesteps` windows and builds one feature row per
  window (`PolymerDataset._process_event`);
- it prepares a labelled dataset from one collection of events per class
  (`PolymerDataset.preprocess`). Preparation balances the classes, filters
  events by length, derives the number of timesteps and segments every
  retained event;
- it serves the prepared samples through `__len__`, `__getitem__` and
  `num_features`.

Modules, one per stage:

- `Samples` (`samples.dfy`): the sample type and the numeric helpers: sum,
  mean, variance, max/min, a descending sort, ceiling division.
- `ExtremaExtractor` (`extrema.dfy`): `find_extrema` and
  `find_current_diffs`.
  - The greedy scan is specified by the index function `Kept`.
  - It is characterised in both directions:
    - a kept sample is accepted against its predecessor;
    - a sample the scan skips would not have been accepted.
  - The method `FindExtrema` is the source's loop, proved to return
    `Extrema`.
- `FeatureBuilder` (`features.dfy`): the 17-field `Features` record and
  `BuildFeatures`.
  - The wavelet peak detector and the square root inside `np.std` are
    parameters, bundled in `Primitives`.
  - `PeaksInRange` requires the detector to return positions inside the
    signal it is given.
- `EventSegmenter` (`segmentation.dfy`): windows, the `Segment` function
  and the loop `ProcessEvent`.
- `DatasetPreparer` (`dataset.dfy`): the preparation specification
  `Prepare`, the loops of `preprocess` (`BalanceData`, `FilterData`,
  `ProcessAll`), and the class `PolymerDataset`.
  - The random permutations that `np.random.permutation` draws per class
    are an argument `perms`, one permutation per class. Preparation is
    therefore a function of its inputs.
  - The three ways `preprocess` fails are the `PrepError` values:
    - `MissingTimestepsAndStepsize`: the `ValueError` at line 138;
    - `NoClasses`: `min()` of an empty list at line 144;
    - `NoEventRetained`: `np.max` of an empty list at line 164.
  - The `None` defaults of `timesteps` and `stepsize` are modelled as 0,
    which Python's `or` also treats as absent.

Behaviour of the code that the model keeps as written:

- A one-sample event (or window) makes `find_extrema` return that sample
  twice. No event needs two samples: `ExtremaEndpoints` states `|r| >= 2`
  for every non-empty event.
- Raising the extrema threshold can *lengthen* the extrema sequence.
  `ThresholdNotMonotone` proves this for one six-sample event. The output
  length is therefore not monotone in the threshold.
- A class left with no event after filtering causes no division. It just
  contributes no sample. Preparation fails only when no class retains any
  event (`PrepareFailures`, `NothingRetainedIff`).
- The permutations for the classes are drawn one after another from a
  single seeded generator. The generator is not reseeded for each class.
  The model takes them as given.

## Model

| member | source | states |
|---|---|---|
| Samples.SeqMax | mete/utils.py:81 | `np.max` of a non-empty array is one of its elements and bounds every element from above |
| Samples.SeqMin | mete/utils.py:82 | `np.min` of a non-empty array is one of its elements and bounds every element from below |
| Samples.MeanBounds | mete/utils.py:83 | the mean of a non-empty array lies between any lower and upper bounds of its elements |
| Samples.Pick | mete/utils.py:93 | fancy indexing `xs[idx]` yields `xs` at each position of `idx`, in order; used for peak currents, extrema and balancing draws |
| Samples.SortDesc | mete/utils.py:93 | `sorted(..., reverse=True)` is descending and a permutation (same multiset) of its input |
| Samples.SumSortDesc | mete/utils.py:93-94 | sorting keeps the sum of the array |
| Samples.MeanSortDesc | mete/utils.py:93-94 | `np.mean` of the sorted peaks is the mean of the unsorted peak currents |
| Samples.SortDescHeadIsMax | mete/utils.py:93-95 | the head of the descending sort is the maximum |
| Samples.CeilDivBounds | mete/utils.py:126 | `ceil(a / b)` is the least number of b-sized steps that covers a; it is at least 1 when a > 0 |
| ExtremaExtractor.Kept | mete/utils.py:11-23 | indices the scan has kept so far: the first is 0, all lie before the scan position |
| ExtremaExtractor.KeptCharacterised | mete/utils.py:14-23 | each kept index is an interior turning point beyond the threshold from the previous kept one, and no index between them (or after the last) would have been accepted |
| ExtremaExtractor.ProductSign | mete/utils.py:18-20 | `prev_change * next_change >= 0` holds exactly when both changes have the same sign (or one is 0) |
| ExtremaExtractor.KeptSamples | mete/utils.py:11-23 | the list of kept samples is never empty and its first entry is the event's first sample |
| ExtremaExtractor.KeptSamplesPicked | mete/utils.py:11-23 | the samples the loop keeps are exactly the event read at the kept indices |
| ExtremaExtractor.ExtremaPicked | mete/utils.py:10-27 | the output is the event read at the kept indices followed by the last index |
| ExtremaExtractor.Extrema | mete/utils.py:10-27 | one output entry per index of `ExtremaIndices` (the kept turning points, then the last sample); its properties are ExtremaPicked, ExtremaEndpoints, ExtremaInterior, ExtremaOrdered and ExtremaSkipped |
| ExtremaExtractor.FindExtrema | mete/utils.py:10-27 | the loop returns exactly `Extrema(e, th)`: the first sample, the accepted turning points, the last sample |
| ExtremaExtractor.ExtremaEndpoints | mete/utils.py:11-25 | the output starts with the first sample and ends with the last; its length lies in [2, max(2, n)] |
| ExtremaExtractor.ExtremaInterior | mete/utils.py:14-23 | every interior output entry is an interior turning point of the event, later than its predecessor, more than the threshold away from the previous output entry |
| ExtremaExtractor.ExtremaOrdered | mete/utils.py:14-25 | output indices are strictly increasing for events of two or more samples |
| ExtremaExtractor.ExtremaSkipped | mete/utils.py:14-23 | a sample skipped between two output entries is no turning point or lies within the threshold of the earlier entry |
| ExtremaExtractor.ThresholdNotMonotone | mete/utils.py:14-23 | a concrete event where threshold 2 keeps 3 samples and threshold 3 keeps 4 |
| ExtremaExtractor.FindCurrentDiffs | mete/utils.py:29-35 | max(0, n-1) differences, the i-th being current[i+1] - current[i] |
| ExtremaExtractor.CurrentDiffsTelescope | mete/utils.py:29-35 | the differences sum to the net change last current - first current |
| FeatureBuilder.Row | mete/utils.py:130 | a feature record becomes a row of exactly 17 values |
| FeatureBuilder.Flatten | mete/utils.py:87-88 | `np.mean`/`np.std` of an n-row extrema array see 2n values |
| FeatureBuilder.FlattenPairs | mete/utils.py:87-88 | value 2i of the flattened array is extremum i's time and value 2i+1 its current: both columns are averaged |
| FeatureBuilder.ExtremaSteps | mete/utils.py:89 | one step per pair of consecutive extrema |
| FeatureBuilder.ExtremaStepsAreDistances | mete/utils.py:89 | each step is non-negative and equals the change of current between two consecutive extrema, up to sign: `np.abs` of that change |
| FeatureBuilder.PeakIndices | mete/utils.py:90 | the peak positions all index the window |
| FeatureBuilder.PeakCurrents | mete/utils.py:93 | one current per detected peak |
| FeatureBuilder.BuildFeatures | mete/utils.py:58-100 | no ensures of its own: the all-zero record for an empty window, otherwise the 17 fields of lines 79-99 in the order of lines 59-77, the peak fields only under `if len(peaks_idx) > 0`; its properties are EmptyWindowIsZero, WindowStatistics, SingleSampleWindow and PeakRanking |
| FeatureBuilder.EmptyWindowIsZero | mete/utils.py:58-100 | an empty window gives the all-zero record and an all-zero row |
| FeatureBuilder.WindowStatistics | mete/utils.py:78-86 | num_signals = n, duration = last time, num_extrema = number of extrema (in [2, max(2,n)]), min <= mean <= max, every current lies in [min, max], and min and max are attained |
| FeatureBuilder.SingleSampleWindow | mete/utils.py:78-89 | for one sample: max = min = mean = its current, standard deviation 0 (given sqrt(0) = 0), two extrema, mean extremum step 0 |
| FeatureBuilder.PeakRanking | mete/utils.py:90-99 | num_peaks = number of peaks; no peak gives zero mean and slots; otherwise the slots are the descending peak currents, 0 beyond the peak count, peak_1 is the largest, the mean is the mean of the peak currents, and it lies between the smallest peak and peak_1 |
| FeatureBuilder.SortDescWithin | mete/utils.py:93-99 | every sorted peak lies between the smallest and the largest peak |
| EventSegmenter.StepSize | mete/utils.py:126 | `stepsize or ceil(len / timesteps)`, a step size of 0 counting as absent; the step is positive unless the event is empty (DerivedStepCoversEvent states that the derived step covers the event) |
| EventSegmenter.Window | mete/utils.py:128 | no ensures of its own: the slice `event[i*s:(i+1)*s]` with both bounds clamped to the length; WindowSize, JoinedIsPrefix and WindowsCoverEvent state its properties |
| EventSegmenter.Segment | mete/utils.py:124-131 | no ensures of its own: row i is the feature row of window i, for i below `timesteps`; SegmentShape, TrailingRowsZero and ProcessEvent state its properties |
| EventSegmenter.ProcessEvent | mete/utils.py:124-131 | the loop returns `Segment`, the features of windows 0 .. timesteps-1 of the resolved step size |
| EventSegmenter.SegmentShape | mete/utils.py:126-131 | a segmented event has exactly `timesteps` rows of 17 values, row i holding the features of window i |
| EventSegmenter.WindowSize | mete/utils.py:128 | a window holds at most `step` samples, exactly `step` when it ends inside the event, none when it starts past the end |
| EventSegmenter.TrailingRowsZero | mete/utils.py:127-130 | rows whose window starts past the end of the event are all zero |
| EventSegmenter.JoinedIsPrefix | mete/utils.py:127-128 | the first n windows concatenate to the first min(n*step, len) samples |
| EventSegmenter.WindowsCoverEvent | mete/utils.py:127-128 | windows covering the event's length reassemble the event |
| EventSegmenter.DerivedStepCoversEvent | mete/utils.py:126-128 | with the step derived as ceil(len / timesteps), the windows reassemble the whole event |
| DatasetPreparer.MinSize | mete/utils.py:144 | the minimum class size is at most every class's size and equal to one of them |
| DatasetPreparer.Draw | mete/utils.py:147 | `r_data[indices[:m]]` is m events, the k-th at position `indices[k]` |
| DatasetPreparer.BalanceData | mete/utils.py:143-147 | the balancing loop computes `Balance`: each class drawn through its permutation down to the minimum size |
| DatasetPreparer.BalancedClasses | mete/utils.py:143-147 | every balanced class has exactly the minimum class size and consists of events of that class at distinct positions |
| DatasetPreparer.Filter | mete/utils.py:157-160 | the filter never lengthens a class |
| DatasetPreparer.FilterSelects | mete/utils.py:157-160 | the filter keeps, in order, exactly the events with 50 < length < 10000 |
| DatasetPreparer.FilterData | mete/utils.py:150-161 | the filtering loops apply the length filter to every class |
| DatasetPreparer.FlatLabels | mete/utils.py:168-172 | one label per flattened event |
| DatasetPreparer.FlatProvenance | mete/utils.py:168-172 | the k-th sample's label c is a class index and the sample is the matching event of class c |
| DatasetPreparer.FlatBlock | mete/utils.py:168-172 | event j of class c becomes sample Offset(c) + j, labelled c |
| DatasetPreparer.Lengths | mete/utils.py:164 | the list of retained event lengths, one per event |
| DatasetPreparer.MaxOf | mete/utils.py:164 | `np.max` of a non-empty list of lengths is one of them and bounds them all |
| DatasetPreparer.ResolveTimesteps | mete/utils.py:163-165 | `timesteps or ceil(max_len / stepsize)`: positive unless the longest length is 0; when derived, the least number of stepsize steps that covers the longest event |
| DatasetPreparer.SegmentAllIndex | mete/utils.py:168-171 | sample k is the segmentation of retained event k |
| DatasetPreparer.ProcessAll | mete/utils.py:168-172 | the processing loops segment every retained event in class order and label it with its class index |
| DatasetPreparer.Prepare | mete/utils.py:133-176 | no ensures of its own: the three failures in the order of lines 138, 144 and 164, otherwise the segmented retained events and their class labels; PrepareFailures, PrepareShape, PrepareSuccess and the provenance lemmas state its properties |
| DatasetPreparer.PrepareFailures | mete/utils.py:137-164 | preparation fails with each error exactly under its condition: no size given; no class; no balanced event within bounds |
| DatasetPreparer.NothingRetainedIff | mete/utils.py:150-164 | no event is retained if and only if no balanced event passes the length filter |
| DatasetPreparer.PrepareShape | mete/utils.py:163-175 | on success: as many labels as samples, at least one sample, every sample has `timesteps` rows of 17 features (the given timesteps, or the derived one, at least 1), labels are class indices |
| DatasetPreparer.Labels | mete/utils.py:168-172 | one label per retained event |
| DatasetPreparer.RetainedInBounds | mete/utils.py:157-164 | every retained event is longer than 50 and shorter than 10000 samples |
| DatasetPreparer.RetainedProvenance | mete/utils.py:143-168 | retained event k passes the length filter and was drawn by balancing from the class its label names |
| DatasetPreparer.RetainedComplete | mete/utils.py:143-168 | every balanced event of class c that passes the length filter is retained with label c |
| DatasetPreparer.PrepareSuccess | mete/utils.py:163-172 | on success, sample k is retained event k segmented with the resolved timesteps, and its label is that event's class |
| DatasetPreparer.SampleProvenance | mete/utils.py:143-172 | sample k is the segmentation of an in-bounds event drawn by balancing from the class its label names |
| DatasetPreparer.EveryRetainedEventLabelled | mete/utils.py:143-172 | conversely, every balanced in-bounds event of class c appears as a sample labelled c |
| DatasetPreparer.DerivedTimestepsCover | mete/utils.py:163-165 | with timesteps derived from the step size, every retained event fits in timesteps * stepsize samples and its windows reassemble it; fewer timesteps would not fit the longest event |
| DatasetPreparer.StepsCoverEvents | mete/utils.py:164-165 | ceil(longest / stepsize) windows hold and reassemble every event, and one fewer does not hold the longest |
| DatasetPreparer.PolymerDataset.constructor | mete/utils.py:103-105 | a dataset starts with its raw classes and no samples |
| DatasetPreparer.PolymerDataset.Preprocess | mete/utils.py:133-176 | keeps `Valid` on both paths; on success data and labels become the prepared samples (valid, non-empty, the first sample having the resolved timesteps >= 1 rows, so `num_features` applies); on failure the error is the one `Prepare` names and nothing changes |
| DatasetPreparer.PolymerDataset.Len | mete/utils.py:110-111 | `__len__` is the number of samples, equal to the number of labels |
| DatasetPreparer.PolymerDataset.GetItem | mete/utils.py:113-114 | `__getitem__` returns the sample and label at the index, negative indices counting from the end; the label is a class index and the rows are 17 wide |
| DatasetPreparer.PolymerDataset.NumFeatures | mete/utils.py:116-118 | `num_features` is 17 |

## Left out

- Plotting (`plot_data`), the LSTM model, `train` and `train_test_split`: they do not belong to the feature pipeline.
- `find_peaks_cwt` internals: the wavelet peak detector is an opaque function parameter. Only its positions being in range is assumed.
- The square root inside `np.std` is a function parameter, so standard deviations are stated as `sqrt(variance)` of the exact population variance.
- Floating point: times, currents and all statistics are exact reals. Rounding, NaN and the float division inside `np.ceil(len / timesteps)` are not modelled; the model uses exact integer ceiling division.
- Random numbers: `np.random.seed(seed)` and `np.random.permutation` are replaced by the permutations argument `perms`.
- File loading (`np.load`), `torch.save`, the conversion to tensors and the `tqdm` progress bar are I/O. `data_paths` only names the progress bar, so the model keeps only the loaded classes.
- `num_classes` (`torch.unique` on the labels) is not modelled. It counts the distinct labels of a tensor, which needs the tensor library.
- The unused `event_lens` list (line 152) and the commented-out quantile bounds are not modelled. Only the constant bounds 50 and 10000 take effect.
- `__init__` runs preprocessing immediately. In the model, construction and `Preprocess` are separate calls, so a failing preparation leaves the dataset unchanged instead of aborting construction.
- Negative `timesteps` or `stepsize` values are not modelled: both are natural numbers.
- ExtremaExtractor.FindExtrema: requires a non-empty event. On an empty one the source raises `IndexError` at `event[0]` (line 12); its only caller, `build_features`, calls it only under `if len(event) > 0` (line 78).
- EventSegmenter.ProcessEvent: requires a positive step size or timesteps. With both absent the source divides by zero; `preprocess` never makes that call.
- DatasetPreparer.PolymerDataset.GetItem: requires an index within range. Out-of-range indices raise `IndexError` in the source and are not modelled as an error value.
