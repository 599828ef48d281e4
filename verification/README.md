# Stock price analytics: a Dafny model of the indicator computations

This project models the pure price-series computations of the DataAnalysis
stock tool (`data_download.py`): the trailing simple moving average that
`add_moving_average` writes into the `Moving_Average` column, the
strong-fluctuation check of `notify_if_strong_fluctuations`, and the period
average of `calculate_and_display_average_price`. Prices are Dafny `real`s.
The `Close` column is a `seq<real>`. A pandas NaN ("no value for this row") is
`None` of an `Option`.

Modules:

- `Wrappers` (`wrappers.dfy`): `Option` and `Result`.
- `PriceSeries` (`price_series.dfy`): `Sum`, `Min`, `Max` and `Mean` of a column, with their bounds.
- `MovingAverage` (`moving_average.dfy`): `rolling(window=w).mean()`.
  It has a reference definition, `RollingMean`, and pandas' single-pass running-sum evaluation, `SlidingRollingMean`.
  The module also proves the window alignment and bound properties.
- `StockFrame` (`stock_frame.dfy`): the table that `add_moving_average` updates.
  It models the rejection of a negative window, the column write, idempotence, and the fact that nothing else changes.
- `Fluctuation` (`fluctuation.dfy`): the peak-to-trough percentage and the strict threshold comparison.
  The log line and console warning become a returned `Report(percent, alert)`.
- `AveragePrice` (`average_price.dfy`): the mean close of the period. Printing is dropped.

Behaviour taken from pandas, which the source calls:

- `rolling(window=w)` uses `min_periods = w` by default. Rows with fewer than `w` closes of history are NaN, and no partial window is averaged.
- pandas raises `ValueError` for a negative window. `AddMovingAverage` returns `Err(NegativeWindow(w))` in that case.
- A window of 0 is accepted by pandas and averages zero observations, so every row is NaN. `RollingMean` yields `None` on every row when `w == 0`.
- `Series.mean()` of an empty column is NaN, not an exception. `PeriodAverage` returns `None` for an empty column.
- `add_moving_average` passes any integer window to pandas, and the model follows the code. The window defaults to 5 (`StockFrame.DefaultWindow`), as in the source's signature.
- `notify_if_strong_fluctuations` has no guard for an empty series or a zero minimum, so the model makes both a precondition of `Fluctuation.NotifyIfStrongFluctuations`.
- The precondition is `Min(closes) != 0`, because that is what the formula needs. The lemmas that rely on positive prices ask for `Min(closes) > 0`.

## Model

| member | source | states |
|---|---|---|
| PriceSeries.Min | data_download.py:62 | the minimum close is one of the closes and no close is below it |
| PriceSeries.Max | data_download.py:61 | the maximum close is one of the closes and no close is above it |
| PriceSeries.MeanWithinMinMax | data_download.py:37 | the mean of a non-empty column lies between its minimum and maximum |
| MovingAverage.RollingMean | data_download.py:49 | the moving-average column has exactly one entry per row of `Close` |
| MovingAverage.SlidingRollingMean | data_download.py:49 | a running-sum pass over the closes (add the entering close, subtract the leaving one) produces exactly the column of trailing-window means |
| MovingAverage.UndefinedPrefixDefinedSuffix | data_download.py:49 | row i is undefined exactly when the window is 0 or i < window-1; every later row has a value |
| MovingAverage.DefinedRowIsWindowAverage | data_download.py:49 | a defined row i holds sum(Close[i-w+1..i]) / w |
| MovingAverage.WindowLongerThanSeries | data_download.py:42-49 | a window longer than the series leaves every row undefined |
| MovingAverage.RowWithinWindowRange | data_download.py:49 | each defined value lies between the minimum and maximum of its own window |
| MovingAverage.RowWithinSeriesRange | data_download.py:49 | each defined value lies between the minimum and maximum of the whole series |
| MovingAverage.ConstantSeries | data_download.py:49 | on a constant series every defined value equals that constant |
| StockFrame.AddMovingAverage | data_download.py:42-51 | a negative window is rejected and nothing else is; on success `Close` and every other column are unchanged, exactly the `Moving_Average` key is added, it holds the rolling mean, and row alignment and the single `Close` column are preserved; the window defaults to 5 |
| StockFrame.AddMovingAverageIdempotent | data_download.py:49-51 | applying it twice with the same window gives the same table as applying it once |
| StockFrame.AddMovingAverageLastWindowWins | data_download.py:49 | a second call overwrites the column, and the table is as if only the second call had happened |
| Fluctuation.NotifyIfStrongFluctuations | data_download.py:54-69 | the alert fires iff the percentage is strictly above the threshold, so a percentage equal to the threshold takes the "within norm" branch; the percentage is 0 exactly when all closes are equal; with positive prices it is non-negative, no relative rise from any close to any other close exceeds it, and some pair of closes attains it |
| Fluctuation.PercentNonNegative | data_download.py:61-63 | with positive prices the fluctuation percentage is never negative |
| Fluctuation.PercentZeroIffFlat | data_download.py:61-63 | the percentage is 0 exactly when all closes are equal |
| Fluctuation.PercentIsLargestSwing | data_download.py:61-63 | the percentage is the largest relative rise from any close to any close, and some pair attains it |
| Fluctuation.AlertIffSomeSwingExceeds | data_download.py:61-69 | the alert fires exactly when some close rose over some other close by strictly more than the threshold |
| Fluctuation.ExampleStrongSwing | data_download.py:61-69 | closes 100, 110, 95 with threshold 5 give 300/19 percent (about 15.79) and an alert |
| Fluctuation.ExampleFlat | data_download.py:61-69 | closes 100, 100, 100 with threshold 5 give 0 percent and no alert |
| AveragePrice.PeriodAverage | data_download.py:37 | the average is undefined exactly for an empty column; otherwise it lies between the minimum and maximum close |
| AveragePrice.AverageOfConstant | data_download.py:37 | a period of constant closes averages to that constant |
| AveragePrice.FullWindowMovingAverage | data_download.py:37-49 | a moving average whose window is the whole series equals the period average on its last row |

## Left out

- `fetch_stock_data` (data_download.py:11-29): a network call through `yfinance`, plus logging. The model takes the `Close` column as its input.
- `export_data_to_csv` (data_download.py:72-84): file output with the exception swallowed and printed.
- The logging setup (data_download.py:8) and every `print`/`logging` call are left out. The fluctuation alert is the returned `alert` flag instead, and the two-decimal formatting is dropped.
- The script's own demo run (data_download.py:87-112): it is orchestration only. Its threshold of 5 appears in the two example lemmas.
- `data_plotting.py` and `main.py`: plotting, file saving and the interactive prompt flow. Neither has any computation of its own.
- RSI and MACD: `main.py` calls `calculate_rsi` and `calculate_macd`, but no source file defines them, so they are not part of this model.
- IEEE-754 behaviour is left out: NaN propagation, rounding, infinities, and pandas' compensated summation. Arithmetic is exact over `real`.
- NaN values inside `Close` are not modelled: every close is a real number. Because of this, pandas' skipping of NaN in `min`, `max` and `mean`, and its shrinking of the rolling-window count, do not arise.
- Fluctuation.NotifyIfStrongFluctuations: requires a non-empty series with a non-zero minimum. Outside that, pandas produces NaN (which takes the "within norm" branch) or an infinity (which raises the alert), and neither value exists over `real`.
- `add_moving_average` updates the pandas table in place and returns that same object, so the caller's table and the returned one are aliases (data_download.py:49-51, 101-105). The model returns a new `Frame` value instead; the in-place update and the aliasing are not modelled.
- Column order is not modelled: pandas appends a new column at the end and keeps the position of a column it overwrites, while `Frame.columns` is an unordered map.
- A missing `Close` column (pandas `KeyError`) is not modelled. The table always has a `Close` column.
