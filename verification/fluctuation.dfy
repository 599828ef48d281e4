/**
 * The strong-fluctuation check: the peak-to-trough swing of the closes, as a
 * percentage of the lowest close, compared strictly against a threshold. The
 * log line and console warning are replaced by the returned report.
 */
module Fluctuation {
  import opened PriceSeries

  /** What the check reports: the computed swing and whether the warning is raised. */
  datatype Report = Report(percent: real, alert: bool)

  /** Relative rise, in percent, from the close `base` to the close `to`. */
  function Swing(base: real, to: real): (pct: real)
    requires base != 0.0
  {
    (to - base) / base * 100.0
  }

  /** `(max - min) / min * 100` over the closes; the formula needs a non-zero minimum. */
  function Percent(closes: seq<real>): (pct: real)
    requires |closes| > 0 && Min(closes) != 0.0
  {
    Swing(Min(closes), Max(closes))
  }

  /**
   * The check itself. The warning fires only when the swing is strictly above
   * the threshold; a swing equal to the threshold is "within norm".
   */
  function NotifyIfStrongFluctuations(closes: seq<real>, threshold: real): (r: Report)
    requires |closes| > 0 && Min(closes) != 0.0
    ensures r.alert <==> r.percent > threshold
    ensures r.percent == 0.0 <==> Flat(closes)
    ensures Min(closes) > 0.0 ==> r.percent >= 0.0
    ensures Min(closes) > 0.0 ==> forall i, j :: 0 <= i < |closes| && 0 <= j < |closes| ==>
      Swing(closes[j], closes[i]) <= r.percent
    ensures Min(closes) > 0.0 ==>
      (exists i, j :: 0 <= i < |closes| && 0 <= j < |closes| && Swing(closes[j], closes[i]) == r.percent)
  {
    PercentZeroIffFlat(closes);
    if Min(closes) > 0.0 then
      PercentNonNegative(closes);
      PercentIsLargestSwing(closes);
      Report(Percent(closes), Percent(closes) > threshold)
    else
      Report(Percent(closes), Percent(closes) > threshold)
  }

  /** With positive prices the swing is never negative. */
  lemma PercentNonNegative(closes: seq<real>)
    requires |closes| > 0 && Min(closes) > 0.0
    ensures Percent(closes) >= 0.0
  {
    var lo, hi := Min(closes), Max(closes);
    assert hi - lo >= 0.0;
    assert (hi - lo) / lo >= 0.0;
  }

  /** The swing is zero exactly when every close is the same. */
  lemma PercentZeroIffFlat(closes: seq<real>)
    requires |closes| > 0 && Min(closes) != 0.0
    ensures Percent(closes) == 0.0 <==> Flat(closes)
  {
    var lo, hi := Min(closes), Max(closes);
    assert Percent(closes) == (hi - lo) / lo * 100.0;
    FlatIffMinEqualsMax(closes);
    QuotientZeroIff(hi - lo, lo);
  }

  lemma QuotientZeroIff(x: real, d: real)
    requires d != 0.0
    ensures x / d * 100.0 == 0.0 <==> x == 0.0
  {
    assert x == (x / d) * d;
  }

  lemma DivideMonotone(x: real, y: real, d: real)
    requires d > 0.0 && x <= y
    ensures x / d <= y / d
  {
    assert x == (x / d) * d;
    assert y == (y / d) * d;
    assert (y / d - x / d) * d == y - x;
  }

  lemma DivideAntitone(x: real, d1: real, d2: real)
    requires x >= 0.0 && 0.0 < d1 <= d2
    ensures x / d2 <= x / d1
  {
    var q1, q2 := x / d1, x / d2;
    assert x == q1 * d1;
    assert x == q2 * d2;
    assert q1 >= 0.0 && q2 >= 0.0;
    assert q2 * d1 <= q2 * d2;
    assert q2 * d1 <= q1 * d1;
  }

  lemma ZeroProduct(x: real, d: real)
    requires d != 0.0 && x * d == 0.0
    ensures x == 0.0
  {
  }

  lemma SwingAsRatio(base: real, to: real)
    requires base != 0.0
    ensures Swing(base, to) == (to / base - 1.0) * 100.0
  {
    var q, r := (to - base) / base, to / base;
    assert q * base == to - base;
    assert r * base == to;
    assert (q - (r - 1.0)) * base == 0.0;
    ZeroProduct(q - (r - 1.0), base);
    assert Swing(base, to) == q * 100.0;
  }

  lemma SwingMonotone(lo: real, base: real, to: real, hi: real)
    requires 0.0 < lo <= base && lo <= hi && to <= hi
    ensures Swing(base, to) <= Swing(lo, hi)
  {
    SwingAsRatio(base, to);
    SwingAsRatio(lo, hi);
    DivideMonotone(to, hi, base);
    DivideAntitone(hi, lo, base);
  }

  /**
   * The reported swing is the largest relative rise from any close to any
   * other close, and some pair of closes attains it.
   */
  lemma PercentIsLargestSwing(closes: seq<real>)
    requires |closes| > 0 && Min(closes) > 0.0
    ensures forall i, j :: 0 <= i < |closes| && 0 <= j < |closes| ==>
      Swing(closes[j], closes[i]) <= Percent(closes)
    ensures exists i, j ::
      0 <= i < |closes| && 0 <= j < |closes| && Swing(closes[j], closes[i]) == Percent(closes)
  {
    var lo, hi := Min(closes), Max(closes);
    forall i, j | 0 <= i < |closes| && 0 <= j < |closes|
      ensures Swing(closes[j], closes[i]) <= Percent(closes)
    {
      SwingMonotone(lo, closes[j], closes[i], hi);
    }
    var k :| 0 <= k < |closes| && closes[k] == hi;
    var l :| 0 <= l < |closes| && closes[l] == lo;
    assert Swing(closes[l], closes[k]) == Percent(closes);
  }

  /**
   * The warning fires exactly when some close rose, relative to some other
   * close, by strictly more than the threshold.
   */
  lemma AlertIffSomeSwingExceeds(closes: seq<real>, threshold: real)
    requires |closes| > 0 && Min(closes) > 0.0
    ensures NotifyIfStrongFluctuations(closes, threshold).alert <==>
      (exists i, j :: 0 <= i < |closes| && 0 <= j < |closes| && Swing(closes[j], closes[i]) > threshold)
  {
    PercentIsLargestSwing(closes);
  }

  /** Closes 100, 110, 95 against a 5% threshold: a swing of 15/95 (about 15.79%) raises the warning. */
  lemma ExampleStrongSwing()
    ensures NotifyIfStrongFluctuations([100.0, 110.0, 95.0], 5.0) == Report(300.0 / 19.0, true)
  {
    var s := [100.0, 110.0, 95.0];
    assert s[..2] == [100.0, 110.0];
    assert s[..2][..1] == [100.0];
    assert Min(s) == 95.0;
    assert Max(s) == 110.0;
  }

  /** Three equal closes against a 5% threshold: no swing, no warning. */
  lemma ExampleFlat()
    ensures NotifyIfStrongFluctuations([100.0, 100.0, 100.0], 5.0) == Report(0.0, false)
  {
    var s := [100.0, 100.0, 100.0];
    assert s[..2] == [100.0, 100.0];
    assert s[..2][..1] == [100.0];
    assert Min(s) == 100.0;
    assert Max(s) == 100.0;
  }
}
