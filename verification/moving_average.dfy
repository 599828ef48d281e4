/**
 * The trailing simple moving average of the `Close` column, as computed by
 * `data['Close'].rolling(window=window_size).mean()`: one output per row,
 * undefined (NaN) until a full window of `window_size` rows is available,
 * with no partial-window averaging.
 */
module MovingAverage {
  import opened Wrappers
  import opened PriceSeries

  /** Row `i` has `w` rows of history ending at and including itself (pandas' default min_periods == window). */
  predicate HasFullWindow(w: nat, i: nat)
  {
    0 < w && w <= i + 1
  }

  /** The `w` closes ending at (and including) row `i`. */
  function Window(closes: seq<real>, w: nat, i: nat): (win: seq<real>)
    requires HasFullWindow(w, i) && i < |closes|
    ensures |win| == w
  {
    closes[i + 1 - w..i + 1]
  }

  /** The value of row `i`: the mean of its full window, or undefined without one. */
  function RowMean(closes: seq<real>, w: nat, i: nat): (v: Option<real>)
    requires i < |closes|
  {
    if HasFullWindow(w, i) then Some(Mean(Window(closes, w, i))) else None
  }

  /** Reference definition: one value per row, aligned with the closes. */
  function RollingMean(closes: seq<real>, w: nat): (r: seq<Option<real>>)
    ensures |r| == |closes|
    ensures forall i :: 0 <= i < |closes| ==> r[i] == RowMean(closes, w, i)
  {
    seq(|closes|, i requires 0 <= i < |closes| => RowMean(closes, w, i))
  }

  /** Start of the running-sum window after `i` rows have been read. */
  function RunStart(w: nat, i: nat): (start: nat)
  {
    if i >= w then i - w else 0
  }

  /** Reading row `i` moves the running sum onto the next window: add the new close, drop the one falling out. */
  lemma SlideStep(closes: seq<real>, w: nat, i: nat, total: real)
    requires i < |closes|
    requires total == Sum(closes[RunStart(w, i)..i])
    ensures total + closes[i] - (if i >= w then closes[i - w] else 0.0) == Sum(closes[RunStart(w, i + 1)..i + 1])
  {
    SumExtendRight(closes, RunStart(w, i), i);
    if i >= w {
      SumDropLeft(closes, i - w, i + 1);
    }
  }

  /** Once row `i` has a full window, the running sum is that window's sum. */
  lemma RowMeanFromTotal(closes: seq<real>, w: nat, i: nat, total: real)
    requires i < |closes|
    requires total == Sum(closes[RunStart(w, i + 1)..i + 1])
    ensures RowMean(closes, w, i) == if HasFullWindow(w, i) then Some(total / (w as real)) else None
  {
    if HasFullWindow(w, i) {
      assert Window(closes, w, i) == closes[RunStart(w, i + 1)..i + 1];
    }
  }

  /**
   * The rolling mean as pandas evaluates it: a single pass keeping a running
   * sum of the current window, adding the entering close and subtracting the
   * one that leaves.
   */
  method SlidingRollingMean(closes: seq<real>, w: nat) returns (r: seq<Option<real>>)
    ensures |r| == |closes|
    ensures r == RollingMean(closes, w)
  {
    r := [];
    var total := 0.0;
    var i := 0;
    while i < |closes|
      invariant 0 <= i <= |closes|
      invariant |r| == i
      invariant total == Sum(closes[RunStart(w, i)..i])
      invariant forall k :: 0 <= k < i ==> r[k] == RowMean(closes, w, k)
    {
      SlideStep(closes, w, i, total);
      total := total + closes[i] - (if i >= w then closes[i - w] else 0.0);
      RowMeanFromTotal(closes, w, i, total);
      r := r + [if HasFullWindow(w, i) then Some(total / (w as real)) else None];
      i := i + 1;
    }
  }

  /** Rows before the first full window are undefined; every later row is defined. */
  lemma UndefinedPrefixDefinedSuffix(closes: seq<real>, w: nat)
    ensures forall i :: 0 <= i < |closes| ==>
      (RollingMean(closes, w)[i].None? <==> (w == 0 || i < w - 1))
  {
  }

  /** A defined row is the sum of its window divided by the window size. */
  lemma DefinedRowIsWindowAverage(closes: seq<real>, w: nat, i: nat)
    requires i < |closes| && w > 0 && i >= w - 1
    ensures RollingMean(closes, w)[i] == Some(Sum(closes[i - (w - 1)..i + 1]) / (w as real))
  {
    assert RollingMean(closes, w)[i] == Some(Mean(Window(closes, w, i)));
  }

  /** A window longer than the series leaves every row undefined. */
  lemma WindowLongerThanSeries(closes: seq<real>, w: nat)
    requires w > |closes|
    ensures forall i :: 0 <= i < |closes| ==> RollingMean(closes, w)[i] == None
  {
  }

  /** Every defined value lies between the minimum and the maximum of its own window. */
  lemma RowWithinWindowRange(closes: seq<real>, w: nat, i: nat)
    requires i < |closes| && HasFullWindow(w, i)
    ensures RollingMean(closes, w)[i].Some?
    ensures Min(Window(closes, w, i)) <= RollingMean(closes, w)[i].value <= Max(Window(closes, w, i))
  {
    MeanWithinMinMax(Window(closes, w, i));
  }

  /** Every defined value lies between the minimum and the maximum of the whole series. */
  lemma RowWithinSeriesRange(closes: seq<real>, w: nat)
    ensures forall i :: 0 <= i < |closes| && RollingMean(closes, w)[i].Some? ==>
      Min(closes) <= RollingMean(closes, w)[i].value <= Max(closes)
  {
    forall i | 0 <= i < |closes| && RollingMean(closes, w)[i].Some?
      ensures Min(closes) <= RollingMean(closes, w)[i].value <= Max(closes)
    {
      var win := Window(closes, w, i);
      assert forall k :: 0 <= k < |win| ==> win[k] == closes[i + 1 - w + k];
      MeanBounds(win, Min(closes), Max(closes));
    }
  }

  /** On a constant series every defined value is that constant. */
  lemma ConstantSeries(closes: seq<real>, w: nat, c: real)
    requires Constant(closes, c)
    ensures forall i :: 0 <= i < |closes| && HasFullWindow(w, i) ==> RollingMean(closes, w)[i] == Some(c)
  {
    forall i | 0 <= i < |closes| && HasFullWindow(w, i)
      ensures RollingMean(closes, w)[i] == Some(c)
    {
      MeanOfConstant(Window(closes, w, i), c);
    }
  }
}
