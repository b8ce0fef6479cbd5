/**
 * The moving-average forecast: a trailing mean over a daily series with a
 * window that shrinks at the start (pandas `rolling(window, min_periods=1)`),
 * and a flat forecast of `horizon` days that repeats the last mean.
 *
 * Calendar days are integers; a daily series is its first day and one value
 * per consecutive day.
 */
module Forecast {
  import opened Wrappers

  /** A series with one value per day, starting on day `first`. */
  datatype Daily = Daily(first: int, vals: seq<real>)

  /** The trailing means, on the series' own days, and the flat forecast. */
  datatype ForecastResult = ForecastResult(ma: Daily, future: Daily)

  /** The sum of a window's values. */
  function Sum(s: seq<real>): real
  {
    if s == [] then 0.0 else s[0] + Sum(s[1..])
  }

  /** The mean of a non-empty window: its sum over its length. */
  function Mean(s: seq<real>): real
    requires |s| > 0
  {
    Sum(s) / |s| as real
  }

  /** The number of values the trailing window holds on day index `i`. */
  function WindowSize(i: nat, window: nat): (k: nat)
    requires window >= 1
    ensures 1 <= k <= window && k <= i + 1
    ensures k == window || k == i + 1
  {
    if window <= i + 1 then window else i + 1
  }

  /** The values of the trailing window ending at index `i`. */
  function TrailingWindow(vals: seq<real>, i: nat, window: nat): (w: seq<real>)
    requires window >= 1 && i < |vals|
    ensures |w| == WindowSize(i, window)
    ensures w[|w| - 1] == vals[i]
  {
    vals[i + 1 - WindowSize(i, window)..i + 1]
  }

  /** The trailing mean of every day: the mean of that day's value and the
      up to `window - 1` values before it. */
  function MovingAverage(vals: seq<real>, window: nat): (ma: seq<real>)
    requires window >= 1
    ensures |ma| == |vals|
  {
    seq(|vals|, i requires 0 <= i < |vals| => Mean(TrailingWindow(vals, i, window)))
  }

  /** The last trailing mean, or 0 for an empty series. */
  function LastValue(ma: seq<real>): (v: real)
    ensures |ma| > 0 ==> v == ma[|ma| - 1]
    ensures |ma| == 0 ==> v == 0.0
  {
    if |ma| > 0 then ma[|ma| - 1] else 0.0
  }

  /** `moving_average_forecast`. The forecast days start the day after the
      series' last day, which an empty series does not have: there is then
      no result. */
  function MovingAverageForecast(ts: Daily, window: nat, horizon: nat): (r: Option<ForecastResult>)
    requires window >= 1
    ensures r.None? <==> |ts.vals| == 0
    ensures r.Some? ==> r.value.ma == Daily(ts.first, MovingAverage(ts.vals, window))
    ensures r.Some? ==> |r.value.future.vals| == horizon
    ensures r.Some? ==> r.value.future.first == ts.first + |ts.vals|
    ensures r.Some? ==> forall k :: 0 <= k < horizon ==>
              r.value.future.vals[k] == LastValue(r.value.ma.vals)
  {
    if |ts.vals| == 0 then None
    else
      var ma := MovingAverage(ts.vals, window);
      var last := LastValue(ma);
      Some(ForecastResult(Daily(ts.first, ma), Daily(ts.first + |ts.vals|, seq(horizon, _ => last))))
  }

  // ---------------------------------------------------------------------------
  // Properties of the trailing mean.
  // ---------------------------------------------------------------------------

  /** Every value of `s` lies in [lo, hi]. */
  predicate Within(s: seq<real>, lo: real, hi: real)
  {
    forall i :: 0 <= i < |s| ==> lo <= s[i] <= hi
  }

  lemma {:induction false} SumBounds(s: seq<real>, lo: real, hi: real)
    requires Within(s, lo, hi)
    ensures |s| as real * lo <= Sum(s) <= |s| as real * hi
  {
    if s != [] {
      assert Within(s[1..], lo, hi) by {
        forall i | 0 <= i < |s[1..]| ensures lo <= s[1..][i] <= hi {
          assert s[1..][i] == s[i + 1];
        }
      }
      SumBounds(s[1..], lo, hi);
      var n := |s[1..]| as real;
      assert (n + 1.0) * lo == n * lo + lo;
      assert (n + 1.0) * hi == n * hi + hi;
    }
  }

  /** `x / n` is at least `lo` when `x` is at least `n * lo`, and at most
      `hi` when `x` is at most `n * hi`. */
  lemma DivBounds(x: real, n: real, lo: real, hi: real)
    requires n > 0.0 && n * lo <= x <= n * hi
    ensures lo <= x / n <= hi
  {
    assert (x / n - lo) * n == x - n * lo;
    assert (hi - x / n) * n == n * hi - x;
  }

  /** The mean lies between the smallest and the largest admissible value. */
  lemma MeanBounds(s: seq<real>, lo: real, hi: real)
    requires |s| > 0 && Within(s, lo, hi)
    ensures lo <= Mean(s) <= hi
  {
    SumBounds(s, lo, hi);
    DivBounds(Sum(s), |s| as real, lo, hi);
  }

  lemma SliceWithin(s: seq<real>, a: nat, b: nat, lo: real, hi: real)
    requires a <= b <= |s| && Within(s, lo, hi)
    ensures Within(s[a..b], lo, hi)
  {
    forall k | 0 <= k < b - a ensures lo <= s[a..b][k] <= hi {
      assert s[a..b][k] == s[a + k];
    }
  }

  /** A series that stays in [lo, hi] has trailing means in [lo, hi]. */
  lemma MovingAverageBounds(vals: seq<real>, window: nat, lo: real, hi: real)
    requires window >= 1 && Within(vals, lo, hi)
    ensures Within(MovingAverage(vals, window), lo, hi)
  {
    var ma := MovingAverage(vals, window);
    forall i | 0 <= i < |ma| ensures lo <= ma[i] <= hi {
      SliceWithin(vals, i + 1 - WindowSize(i, window), i + 1, lo, hi);
      MeanBounds(TrailingWindow(vals, i, window), lo, hi);
    }
  }

  /** A constant series has a constant moving average. */
  lemma MovingAverageConstant(vals: seq<real>, window: nat, c: real)
    requires window >= 1 && forall i :: 0 <= i < |vals| ==> vals[i] == c
    ensures forall i :: 0 <= i < |vals| ==> MovingAverage(vals, window)[i] == c
  {
    MovingAverageBounds(vals, window, c, c);
  }

  /** With a window of one day the moving average is the series itself. */
  lemma MovingAverageWindowOne(vals: seq<real>)
    ensures MovingAverage(vals, 1) == vals
  {
    var ma := MovingAverage(vals, 1);
    forall i | 0 <= i < |vals| ensures ma[i] == vals[i] {
      var w := TrailingWindow(vals, i, 1);
      assert w == [vals[i]];
      assert Sum(w) == vals[i] + Sum([]);
    }
  }

  /** The mean on a day depends only on that day and the days before it:
      extending the series leaves the earlier means as they were. */
  lemma MovingAverageTrailing(vals: seq<real>, more: seq<real>, window: nat)
    requires window >= 1
    ensures MovingAverage(vals + more, window)[..|vals|] == MovingAverage(vals, window)
  {
    var l, r := MovingAverage(vals + more, window)[..|vals|], MovingAverage(vals, window);
    forall i | 0 <= i < |vals| ensures l[i] == r[i] {
      assert TrailingWindow(vals + more, i, window) == TrailingWindow(vals, i, window);
    }
  }

  /** Ten days of demand 5 with a three-day window and a two-day horizon:
      the moving average is 5 throughout and the forecast is 5 on each of the
      two days after the series. */
  lemma TenFivesForecast(first: int)
    ensures var r := MovingAverageForecast(Daily(first, seq(10, _ => 5.0)), 3, 2);
      && r.Some?
      && r.value.ma.vals == seq(10, _ => 5.0)
      && r.value.future == Daily(first + 10, [5.0, 5.0])
  {
    var vals := seq(10, _ => 5.0);
    MovingAverageConstant(vals, 3, 5.0);
    var r := MovingAverageForecast(Daily(first, vals), 3, 2);
    assert r.value.ma.vals == vals;
    assert r.value.future.vals == [5.0, 5.0];
  }
}
