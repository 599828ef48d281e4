/**
 * The period average of the closes (`data['Close'].mean()`), without the
 * logging and the two-decimal console output.
 */
module AveragePrice {
  import opened Wrappers
  import opened PriceSeries
  import MovingAverage

  /** Mean close over the period; pandas yields NaN for an empty column, modelled as `None`. */
  function PeriodAverage(closes: seq<real>): (r: Option<real>)
    ensures r.None? <==> |closes| == 0
    ensures r.Some? ==> Min(closes) <= r.value <= Max(closes)
  {
    if |closes| == 0 then None
    else
      MeanWithinMinMax(closes);
      Some(Mean(closes))
  }

  /** The average of a period in which every close is `c` is `c`. */
  lemma AverageOfConstant(closes: seq<real>, c: real)
    requires |closes| > 0 && Constant(closes, c)
    ensures PeriodAverage(closes) == Some(c)
  {
    MeanOfConstant(closes, c);
  }

  /** A moving average whose window spans the whole series equals the period average on the last row. */
  lemma FullWindowMovingAverage(closes: seq<real>)
    requires |closes| > 0
    ensures MovingAverage.RollingMean(closes, |closes|)[|closes| - 1] == PeriodAverage(closes)
  {
    var n := |closes|;
    assert MovingAverage.Window(closes, n, n - 1) == closes;
    assert MovingAverage.RollingMean(closes, n)[n - 1] == MovingAverage.RowMean(closes, n, n - 1);
  }
}
