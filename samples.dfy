/**
  Samples of an event trace and the small numeric toolbox the feature
  pipeline relies on: sums and means over `real`, minimum and maximum,
  a descending sort (Python's `sorted(..., reverse=True)`) and the ceiling
  division used to size windows.
 */
module Samples {

  /** One row of an event: a (time, current) pair. */
  datatype Sample = Sample(time: real, current: real)

  /** An event trace: samples in time order. */
  type Event = seq<Sample>

  function Abs(x: real): real {
    if x < 0.0 then -x else x
  }

  function RealMax(a: real, b: real): real {
    if a < b then b else a
  }

  /** The current column `event[:, 1]`. */
  function Currents(e: Event): (cs: seq<real>)
    ensures |cs| == |e|
    ensures forall i :: 0 <= i < |e| ==> cs[i] == e[i].current
  {
    seq(|e|, i requires 0 <= i < |e| => e[i].current)
  }

  /** Fancy indexing `xs[idx]`: the values of `xs` at the positions `idx`, in that order. */
  function Pick<T>(xs: seq<T>, idx: seq<int>): (r: seq<T>)
    requires forall k :: 0 <= k < |idx| ==> 0 <= idx[k] < |xs|
    ensures |r| == |idx|
    ensures forall k :: 0 <= k < |idx| ==> r[k] == xs[idx[k]]
  {
    seq(|idx|, k requires 0 <= k < |idx| => xs[idx[k]])
  }

  function Sum(s: seq<real>): real {
    if s == [] then 0.0 else Sum(s[..|s| - 1]) + s[|s| - 1]
  }

  /** `np.mean` of a non-empty array. */
  function Mean(s: seq<real>): real
    requires |s| > 0
  {
    Sum(s) / (|s| as real)
  }

  /** Population variance (`np.var`, the square of `np.std`). */
  function Variance(s: seq<real>): real
    requires |s| > 0
  {
    var m := Mean(s);
    Mean(seq(|s|, i requires 0 <= i < |s| => (s[i] - m) * (s[i] - m)))
  }

  /** `np.max` of a non-empty array. */
  function SeqMax(s: seq<real>): (m: real)
    requires |s| > 0
    ensures m in s
    ensures forall i :: 0 <= i < |s| ==> s[i] <= m
  {
    if |s| == 1 then s[0]
    else
      var m := SeqMax(s[..|s| - 1]);
      if m < s[|s| - 1] then s[|s| - 1] else m
  }

  /** `np.min` of a non-empty array. */
  function SeqMin(s: seq<real>): (m: real)
    requires |s| > 0
    ensures m in s
    ensures forall i :: 0 <= i < |s| ==> m <= s[i]
  {
    if |s| == 1 then s[0]
    else
      var m := SeqMin(s[..|s| - 1]);
      if s[|s| - 1] < m then s[|s| - 1] else m
  }

  lemma {:induction false} SumBounds(s: seq<real>, lo: real, hi: real)
    requires forall i :: 0 <= i < |s| ==> lo <= s[i] <= hi
    ensures (|s| as real) * lo <= Sum(s) <= (|s| as real) * hi
  {
    if s != [] {
      var n := |s| - 1;
      SumBounds(s[..n], lo, hi);
      assert (n as real) * lo + lo == (|s| as real) * lo;
      assert (n as real) * hi + hi == (|s| as real) * hi;
    }
  }

  /** The mean of a non-empty array lies between any bounds of its elements. */
  lemma MeanBounds(s: seq<real>, lo: real, hi: real)
    requires |s| > 0
    requires forall i :: 0 <= i < |s| ==> lo <= s[i] <= hi
    ensures lo <= Mean(s) <= hi
  {
    SumBounds(s, lo, hi);
    QuotientBounds(Sum(s), |s| as real, lo, hi);
  }

  lemma QuotientBounds(x: real, n: real, lo: real, hi: real)
    requires n > 0.0 && n * lo <= x <= n * hi
    ensures lo <= x / n <= hi
  {
    assert (x / n) * n == x;
  }

  /** Summing from the front: the head plus the sum of the tail. */
  lemma {:induction false} SumCons(a: real, t: seq<real>)
    ensures Sum([a] + t) == a + Sum(t)
  {
    var u := [a] + t;
    if t == [] {
      assert u[..0] == [];
    } else {
      assert u[..|u| - 1] == [a] + t[..|t| - 1];
      SumCons(a, t[..|t| - 1]);
    }
  }

  ghost predicate SortedDesc(s: seq<real>) {
    forall i, j :: 0 <= i < j < |s| ==> s[i] >= s[j]
  }

  function InsertDesc(x: real, s: seq<real>): (r: seq<real>)
    requires SortedDesc(s)
    ensures SortedDesc(r)
    ensures multiset(r) == multiset(s) + multiset{x}
    ensures |r| == |s| + 1
    ensures r[0] == if s == [] then x else RealMax(x, s[0])
  {
    if s == [] then [x]
    else if x >= s[0] then [x] + s
    else
      var rest := InsertDesc(x, s[1..]);
      assert s == [s[0]] + s[1..];
      [s[0]] + rest
  }

  /** `sorted(s, reverse=True)`: a descending permutation of `s`. */
  function SortDesc(s: seq<real>): (r: seq<real>)
    ensures SortedDesc(r)
    ensures multiset(r) == multiset(s)
    ensures |r| == |s|
  {
    if s == [] then []
    else
      assert s == [s[0]] + s[1..];
      InsertDesc(s[0], SortDesc(s[1..]))
  }

  lemma {:induction false} SumInsertDesc(x: real, s: seq<real>)
    requires SortedDesc(s)
    ensures Sum(InsertDesc(x, s)) == x + Sum(s)
  {
    if s == [] {
      SumCons(x, s);
    } else if x >= s[0] {
      SumCons(x, s);
    } else {
      SumInsertDesc(x, s[1..]);
      SumCons(s[0], InsertDesc(x, s[1..]));
      SumCons(s[0], s[1..]);
      assert s == [s[0]] + s[1..];
    }
  }

  /** Sorting keeps the sum. */
  lemma {:induction false} SumSortDesc(s: seq<real>)
    ensures Sum(SortDesc(s)) == Sum(s)
  {
    if s != [] {
      SumSortDesc(s[1..]);
      SumInsertDesc(s[0], SortDesc(s[1..]));
      SumCons(s[0], s[1..]);
      assert s == [s[0]] + s[1..];
    }
  }

  /** `np.mean(sorted(s, reverse=True))` is the mean of `s`: sorting does not move the mean. */
  lemma MeanSortDesc(s: seq<real>)
    requires |s| > 0
    ensures Mean(SortDesc(s)) == Mean(s)
  {
    SumSortDesc(s);
  }

  /** The head of a descending sort is the largest element. */
  lemma SortDescHeadIsMax(s: seq<real>)
    requires |s| > 0
    ensures SortDesc(s)[0] == SeqMax(s)
  {
    var r := SortDesc(s);
    assert r[0] in multiset(s) by { assert r[0] in multiset(r); }
    assert SeqMax(s) in multiset(r) by { assert SeqMax(s) in multiset(s); }
    var j :| 0 <= j < |r| && r[j] == SeqMax(s);
    var i :| 0 <= i < |s| && s[i] == r[0];
  }

  /** `int(np.ceil(a / b))` for non-negative integers. */
  function CeilDiv(a: nat, b: nat): nat
    requires b > 0
  {
    (a + b - 1) / b
  }

  /** CeilDiv(a, b) is the least number of b-sized steps covering a. */
  lemma CeilDivBounds(a: nat, b: nat)
    requires b > 0
    ensures CeilDiv(a, b) * b >= a
    ensures (CeilDiv(a, b) - 1) * b < a
    ensures a > 0 ==> CeilDiv(a, b) >= 1
  {
    var q, r := (a + b - 1) / b, (a + b - 1) % b;
    assert a + b - 1 == q * b + r;
    assert (q - 1) * b == q * b - b;
  }
}
