/**
 * The stock-data table as `add_moving_average` sees it: the `Close` column and
 * the other named columns, each aligned row by row with `Close`.
 */
module StockFrame {
  import opened Wrappers
  import MovingAverage

  /** Name of the price column every computation reads. */
  const CloseColumn: string := "Close"

  /** Name of the column `add_moving_average` writes. */
  const MovingAverageColumn: string := "Moving_Average"

  /** Window used when the caller does not pass one. */
  const DefaultWindow: int := 5

  /**
   * The table: the `Close` prices, plus every other column by name (`None`
   * where a value is NaN). `Close` is held apart, so a well-formed table never
   * lists it among `columns` as well.
   */
  datatype Frame = Frame(close: seq<real>, columns: map<string, seq<Option<real>>>)

  /** pandas refuses a negative rolling window with a ValueError. */
  datatype FrameError = NegativeWindow(window: int)

  /** Every column has one entry per row of `Close`. */
  predicate Aligned(f: Frame)
  {
    forall k :: k in f.columns ==> |f.columns[k]| == |f.close|
  }

  /** A table with one `Close` column and every column aligned with it. */
  predicate WellFormed(f: Frame)
  {
    CloseColumn !in f.columns && Aligned(f)
  }

  /**
   * Writes (or overwrites) the `Moving_Average` column with the trailing mean
   * of `Close` over `windowSize` rows (5 unless the caller passes one), and
   * returns the table with the column written.
   */
  function AddMovingAverage(f: Frame, windowSize: int := DefaultWindow): (r: Result<Frame, FrameError>)
    ensures r.Err? <==> windowSize < 0
    ensures r.Err? ==> r.error == NegativeWindow(windowSize)
    ensures r.Ok? ==> r.value.close == f.close
    ensures r.Ok? ==> r.value.columns.Keys == f.columns.Keys + {MovingAverageColumn}
    ensures r.Ok? ==> forall k :: k in f.columns && k != MovingAverageColumn ==>
      r.value.columns[k] == f.columns[k]
    ensures r.Ok? ==> r.value.columns[MovingAverageColumn] == MovingAverage.RollingMean(f.close, windowSize)
    ensures r.Ok? && Aligned(f) ==> Aligned(r.value)
    ensures r.Ok? && WellFormed(f) ==> WellFormed(r.value)
  {
    if windowSize < 0 then Err(NegativeWindow(windowSize))
    else Ok(f.(columns := f.columns[MovingAverageColumn := MovingAverage.RollingMean(f.close, windowSize)]))
  }

  /** Applying it twice with the same window gives the same table as applying it once. */
  lemma AddMovingAverageIdempotent(f: Frame, windowSize: int)
    requires windowSize >= 0
    ensures AddMovingAverage(f, windowSize).Ok?
    ensures AddMovingAverage(AddMovingAverage(f, windowSize).value, windowSize) == AddMovingAverage(f, windowSize)
  {
    AddMovingAverageLastWindowWins(f, windowSize, windowSize);
  }

  /** With the window of a second call, the column is rewritten; nothing else about the table changes. */
  lemma AddMovingAverageLastWindowWins(f: Frame, w1: int, w2: int)
    requires w1 >= 0
    ensures AddMovingAverage(AddMovingAverage(f, w1).value, w2) == AddMovingAverage(f, w2)
  {
    var once := AddMovingAverage(f, w1).value;
    if w2 >= 0 {
      var column := MovingAverage.RollingMean(f.close, w2);
      assert once.close == f.close;
      assert once.columns[MovingAverageColumn := column] == f.columns[MovingAverageColumn := column];
    }
  }
}
