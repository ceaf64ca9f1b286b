/** The indicator engine of indicators.py: percent change, RSI and Bollinger bands,
    over a price series given as a sequence of reals (oldest first). */
module Indicators {
  import opened Wrappers

  /** Every price is strictly positive, as exchange prices are. */
  predicate AllPositive(s: seq<real>)
  {
    forall i :: 0 <= i < |s| ==> s[i] > 0.0
  }

  predicate AllNonNegative(xs: seq<real>)
  {
    forall i :: 0 <= i < |xs| ==> xs[i] >= 0.0
  }

  predicate AllZero(xs: seq<real>)
  {
    forall i :: 0 <= i < |xs| ==> xs[i] == 0.0
  }

  predicate Constant(s: seq<real>, c: real)
  {
    forall i :: 0 <= i < |s| ==> s[i] == c
  }

  // ---------------------------------------------------------------------------
  // Percent change
  // ---------------------------------------------------------------------------

  /** Percent change of the last price against the price `lookback` steps before it;
      0.0 is a sentinel for "not enough data yet". */
  function PercentChange(s: seq<real>, lookback: nat): (r: real)
    requires |s| >= lookback + 1 ==> s[|s| - 1 - lookback] != 0.0
    ensures |s| < lookback + 1 ==> r == 0.0
    ensures |s| >= lookback + 1 ==>
              r * s[|s| - 1 - lookback] == (s[|s| - 1] - s[|s| - 1 - lookback]) * 100.0
    ensures |s| >= lookback + 1 && s[|s| - 1 - lookback] > 0.0 ==>
              (r < 0.0 <==> s[|s| - 1] < s[|s| - 1 - lookback]) &&
              (r > 0.0 <==> s[|s| - 1] > s[|s| - 1 - lookback]) &&
              (r == 0.0 <==> s[|s| - 1] == s[|s| - 1 - lookback])
  {
    if |s| < lookback + 1 then 0.0
    else
      var last, past := s[|s| - 1], s[|s| - 1 - lookback];
      var r := (last - past) / past * 100.0;
      assert past > 0.0 ==> (r < 0.0 <==> last - past < 0.0) && (r > 0.0 <==> last - past > 0.0) by {
        if past > 0.0 {
          assert (last - past) / past * past == last - past;
        }
      }
      assert r * past == (last - past) * 100.0 by {
        assert (last - past) / past * past == last - past;
      }
      r
  }

  /** A drop of at least `d` percent means the last price is at most `1 - d/100` times the
      price `lookback` steps before it. */
  lemma PercentDropThreshold(s: seq<real>, lookback: nat, d: real)
    requires |s| >= lookback + 1 && s[|s| - 1 - lookback] > 0.0
    ensures -PercentChange(s, lookback) >= d <==>
              s[|s| - 1] <= s[|s| - 1 - lookback] * (1.0 - d / 100.0)
  {
    var r, last, past := PercentChange(s, lookback), s[|s| - 1], s[|s| - 1 - lookback];
    assert r * past == (last - past) * 100.0;
    assert past * (1.0 - d / 100.0) == past - d * past / 100.0;
    if -r >= d {
      MulLeft(past, d, -r);
    } else {
      assert past * (d + r) > 0.0;
      assert past * (d + r) == past * d + r * past;
    }
  }

  /** A fall from 100 to 95 is a change of -5 %, a rise from 80 to 84 one of +5 %. */
  lemma PercentChangeExample()
    ensures PercentChange([100.0, 95.0], 1) == -5.0
    ensures PercentChange([80.0, 90.0, 84.0], 2) == 5.0
    ensures PercentChange([80.0, 90.0, 84.0], 3) == 0.0
  {
    var r := PercentChange([100.0, 95.0], 1);
    assert r * 100.0 == -500.0;
    var q := PercentChange([80.0, 90.0, 84.0], 2);
    assert q * 80.0 == 400.0;
  }

  /** Older history in front of the series does not change the percent change. */
  lemma PercentChangeIgnoresOlderHistory(older: seq<real>, s: seq<real>, lookback: nat)
    requires |s| >= lookback + 1 && s[|s| - 1 - lookback] != 0.0
    ensures (older + s)[|older + s| - 1 - lookback] != 0.0
    ensures PercentChange(older + s, lookback) == PercentChange(s, lookback)
  {
    var t := older + s;
    assert t[|t| - 1] == s[|s| - 1];
    assert t[|t| - 1 - lookback] == s[|s| - 1 - lookback];
  }

  /** The percent change depends only on the last price and the price `lookback` steps back. */
  lemma PercentChangeDependsOnTwoPrices(s: seq<real>, t: seq<real>, lookback: nat)
    requires |s| >= lookback + 1 && |t| >= lookback + 1
    requires s[|s| - 1] == t[|t| - 1] && s[|s| - 1 - lookback] == t[|t| - 1 - lookback]
    requires s[|s| - 1 - lookback] != 0.0
    ensures PercentChange(s, lookback) == PercentChange(t, lookback)
  {
  }

  /** On a constant positive series the percent change is zero. */
  lemma PercentChangeOfConstant(s: seq<real>, c: real, lookback: nat)
    requires c > 0.0 && Constant(s, c)
    ensures PercentChange(s, lookback) == 0.0
  {
  }

  // ---------------------------------------------------------------------------
  // RSI
  // ---------------------------------------------------------------------------

  /** Step-to-step differences, the non-NaN part of `series.diff()`. */
  function Deltas(s: seq<real>): (d: seq<real>)
    ensures |d| == if |s| == 0 then 0 else |s| - 1
  {
    if |s| <= 1 then [] else seq(|s| - 1, i requires 0 <= i < |s| - 1 => s[i + 1] - s[i])
  }

  /** `delta.clip(lower=0)` */
  function Gain(d: real): real
  {
    if d > 0.0 then d else 0.0
  }

  /** `-1 * delta.clip(upper=0)` */
  function Loss(d: real): real
  {
    -1.0 * (if d < 0.0 then d else 0.0)
  }

  lemma GainLossSplit(d: real)
    ensures Gain(d) >= 0.0 && Loss(d) >= 0.0
    ensures Gain(d) == 0.0 || Loss(d) == 0.0
    ensures Gain(d) - Loss(d) == d
  {
  }

  function Gains(d: seq<real>): (g: seq<real>)
    ensures |g| == |d| && AllNonNegative(g)
  {
    seq(|d|, i requires 0 <= i < |d| => Gain(d[i]))
  }

  function Losses(d: seq<real>): (l: seq<real>)
    ensures |l| == |d| && AllNonNegative(l)
  {
    seq(|d|, i requires 0 <= i < |d| => Loss(d[i]))
  }

  /** The decay factor 1 - alpha of an exponential average with alpha = 1/period. */
  function Decay(period: nat): (beta: real)
    requires period >= 1
    ensures 0.0 <= beta < 1.0
  {
    1.0 - 1.0 / period as real
  }

  /** Numerator of pandas' adjusted exponential average: the newest value has weight 1,
      each older one the weight of its successor times `beta`. */
  function EwmWeightedSum(xs: seq<real>, beta: real): real
    decreases |xs|
  {
    if |xs| == 0 then 0.0 else xs[|xs| - 1] + beta * EwmWeightedSum(xs[..|xs| - 1], beta)
  }

  /** Denominator of the adjusted exponential average: the sum of the `n` weights. */
  function EwmWeightTotal(n: nat, beta: real): (r: real)
    requires beta >= 0.0
    ensures r >= 0.0
    ensures n >= 1 ==> r >= 1.0
  {
    if n == 0 then 0.0 else 1.0 + beta * EwmWeightTotal(n - 1, beta)
  }

  /** Multiplying both sides of an inequality by a non-negative factor keeps it. */
  lemma MulLeft(a: real, x: real, y: real)
    requires a >= 0.0 && x <= y
    ensures a * x <= a * y
  {
    assert a * y - a * x == a * (y - x);
  }

  /** A positive common factor can be cancelled from an inequality. */
  lemma CancelPositive(x: real, y: real, a: real)
    requires a > 0.0 && x * a <= y * a
    ensures x <= y
  {
    var d := y - x;
    assert d * a == y * a - x * a;
    assert d == (d * a) / a;
  }

  /** A quotient by a positive number keeps the bounds its numerator has in units of it. */
  lemma DivBetween(s: real, t: real, lo: real, hi: real)
    requires t > 0.0 && lo * t <= s <= hi * t
    ensures lo <= s / t <= hi
  {
    var q := s / t;
    assert q * t == s;
    assert (q - lo) * t >= 0.0;
    assert (hi - q) * t >= 0.0;
  }

  lemma AboveStep(x: real, beta: real, s: real, t: real, lo: real)
    requires beta >= 0.0 && lo * t <= s && lo <= x
    ensures lo * (1.0 + beta * t) <= x + beta * s
  {
    MulLeft(beta, lo * t, s);
    assert lo * (1.0 + beta * t) == lo + beta * (lo * t);
  }

  lemma BelowStep(x: real, beta: real, s: real, t: real, hi: real)
    requires beta >= 0.0 && s <= hi * t && x <= hi
    ensures x + beta * s <= hi * (1.0 + beta * t)
  {
    MulLeft(beta, s, hi * t);
    assert hi * (1.0 + beta * t) == hi + beta * (hi * t);
  }

  /** Values no smaller than `lo` give a weighted sum of at least `lo` times the weights. */
  lemma {:induction false} EwmWeightedSumAbove(xs: seq<real>, beta: real, lo: real)
    requires beta >= 0.0
    requires forall i :: 0 <= i < |xs| ==> lo <= xs[i]
    ensures lo * EwmWeightTotal(|xs|, beta) <= EwmWeightedSum(xs, beta)
    decreases |xs|
  {
    if |xs| > 0 {
      var p := xs[..|xs| - 1];
      EwmWeightedSumAbove(p, beta, lo);
      AboveStep(xs[|xs| - 1], beta, EwmWeightedSum(p, beta), EwmWeightTotal(|p|, beta), lo);
    }
  }

  /** Values no larger than `hi` give a weighted sum of at most `hi` times the weights. */
  lemma {:induction false} EwmWeightedSumBelow(xs: seq<real>, beta: real, hi: real)
    requires beta >= 0.0
    requires forall i :: 0 <= i < |xs| ==> xs[i] <= hi
    ensures EwmWeightedSum(xs, beta) <= hi * EwmWeightTotal(|xs|, beta)
    decreases |xs|
  {
    if |xs| > 0 {
      var p := xs[..|xs| - 1];
      EwmWeightedSumBelow(p, beta, hi);
      BelowStep(xs[|xs| - 1], beta, EwmWeightedSum(p, beta), EwmWeightTotal(|p|, beta), hi);
    }
  }

  /** Sign facts about the weighted sum, from its bounds. */
  lemma {:induction false} EwmWeightedSumSign(xs: seq<real>, beta: real)
    requires beta >= 0.0
    ensures AllNonNegative(xs) ==> EwmWeightedSum(xs, beta) >= 0.0
    ensures AllZero(xs) ==> EwmWeightedSum(xs, beta) == 0.0
    ensures |xs| > 0 && AllPositive(xs) ==> EwmWeightedSum(xs, beta) > 0.0
  {
    if AllNonNegative(xs) {
      EwmWeightedSumAbove(xs, beta, 0.0);
    }
    if AllZero(xs) {
      EwmWeightedSumAbove(xs, beta, 0.0);
      EwmWeightedSumBelow(xs, beta, 0.0);
    }
    if |xs| > 0 && AllPositive(xs) {
      var p := xs[..|xs| - 1];
      EwmWeightedSumAbove(p, beta, 0.0);
      MulLeft(beta, 0.0, EwmWeightedSum(p, beta));
    }
  }

  /** `ewm(alpha=1/period, min_periods=period).mean()` at the last position:
      undefined until `period` observations are available. */
  function EwmMean(xs: seq<real>, period: nat): (r: Option<real>)
    requires period >= 1
    ensures r.Some? <==> |xs| >= period
    ensures r.Some? && AllNonNegative(xs) ==> r.value >= 0.0
    ensures r.Some? && AllZero(xs) ==> r.value == 0.0
    ensures r.Some? && AllPositive(xs) ==> r.value > 0.0
  {
    if |xs| < period then None
    else
      var beta := Decay(period);
      var s, t := EwmWeightedSum(xs, beta), EwmWeightTotal(|xs|, beta);
      EwmWeightedSumSign(xs, beta);
      assert s / t * t == s;
      Some(s / t)
  }

  lemma {:induction false} EwmQuotientBetween(xs: seq<real>, beta: real, lo: real, hi: real)
    requires beta >= 0.0 && |xs| >= 1
    requires forall i :: 0 <= i < |xs| ==> lo <= xs[i] <= hi
    ensures lo <= EwmWeightedSum(xs, beta) / EwmWeightTotal(|xs|, beta) <= hi
  {
    var s, t := EwmWeightedSum(xs, beta), EwmWeightTotal(|xs|, beta);
    assert t >= 1.0 && lo * t <= s <= hi * t by {
      EwmWeightedSumAbove(xs, beta, lo);
      EwmWeightedSumBelow(xs, beta, hi);
    }
    DivBetween(s, t, lo, hi);
  }

  /** The exponential average of values in [lo, hi] lies in [lo, hi]. */
  lemma {:induction false} EwmMeanBetween(xs: seq<real>, period: nat, lo: real, hi: real)
    requires period >= 1 && |xs| >= period
    requires forall i :: 0 <= i < |xs| ==> lo <= xs[i] <= hi
    ensures lo <= EwmMean(xs, period).value <= hi
  {
    EwmQuotientBetween(xs, Decay(period), lo, hi);
  }

  /** The final RSI mapping `100 - 100 / (1 + rs)`. */
  function RsiFormula(rs: real): (r: real)
    requires rs >= 0.0
    ensures 0.0 <= r < 100.0
    ensures r == 0.0 <==> rs == 0.0
    ensures r * (1.0 + rs) == 100.0 * rs
  {
    var q := 100.0 / (1.0 + rs);
    assert q * (1.0 + rs) == 100.0;
    100.0 - q
  }

  /** A larger relative strength never gives a smaller RSI. */
  lemma RsiFormulaMonotonic(rs1: real, rs2: real)
    requires 0.0 <= rs1 <= rs2
    ensures RsiFormula(rs1) <= RsiFormula(rs2)
  {
    var a, b := 1.0 + rs1, 1.0 + rs2;
    var qa, qb := 100.0 / a, 100.0 / b;
    assert qa * a == 100.0 && qb * b == 100.0;
    MulLeft(qb, a, b);
    CancelPositive(qb, qa, a);
    assert RsiFormula(rs1) == 100.0 - qa && RsiFormula(rs2) == 100.0 - qb;
  }

  /** RSI from the two averages as IEEE arithmetic computes it: a zero average loss
      makes `rs` infinite (RSI 100) unless the average gain is zero too (NaN). */
  function RsiFromAverages(up: real, down: real): (r: Option<real>)
    requires up >= 0.0 && down >= 0.0
    ensures r.None? <==> up == 0.0 && down == 0.0
    ensures r.Some? ==> 0.0 <= r.value <= 100.0
    ensures down == 0.0 && up > 0.0 ==> r == Some(100.0)
    ensures up == 0.0 && down > 0.0 ==> r == Some(0.0)
  {
    if down == 0.0 then
      if up == 0.0 then None else Some(100.0)
    else
      Some(RsiFormula(up / down))
  }

  /** `rsi(series, period).iloc[-1]`; None stands for NaN. */
  function Rsi(s: seq<real>, period: nat): (r: Option<real>)
    requires period >= 1
    ensures r.Some? ==> |s| >= period + 1
    ensures r.Some? ==> 0.0 <= r.value <= 100.0
  {
    var d := Deltas(s);
    var up := EwmMean(Gains(d), period);
    var down := EwmMean(Losses(d), period);
    if up.None? || down.None? then None
    else RsiFromAverages(up.value, down.value)
  }

  predicate StrictlyIncreasing(s: seq<real>)
  {
    forall i :: 0 <= i < |s| - 1 ==> s[i] < s[i + 1]
  }

  predicate StrictlyDecreasing(s: seq<real>)
  {
    forall i :: 0 <= i < |s| - 1 ==> s[i] > s[i + 1]
  }

  /** On a strictly rising series with enough history the RSI is 100. */
  lemma RsiOfRisingSeries(s: seq<real>, period: nat)
    requires period >= 1 && |s| >= period + 1 && StrictlyIncreasing(s)
    ensures Rsi(s, period) == Some(100.0)
  {
    var d := Deltas(s);
    assert AllPositive(Gains(d)) by {
      forall i | 0 <= i < |d| ensures Gains(d)[i] > 0.0 {
        assert d[i] == s[i + 1] - s[i];
      }
    }
    assert AllZero(Losses(d)) by {
      forall i | 0 <= i < |d| ensures Losses(d)[i] == 0.0 {
        assert d[i] == s[i + 1] - s[i];
      }
    }
  }

  /** On a strictly falling series with enough history the RSI is 0. */
  lemma RsiOfFallingSeries(s: seq<real>, period: nat)
    requires period >= 1 && |s| >= period + 1 && StrictlyDecreasing(s)
    ensures Rsi(s, period) == Some(0.0)
  {
    var d := Deltas(s);
    assert AllZero(Gains(d)) by {
      forall i | 0 <= i < |d| ensures Gains(d)[i] == 0.0 {
        assert d[i] == s[i + 1] - s[i];
      }
    }
    assert AllPositive(Losses(d)) by {
      forall i | 0 <= i < |d| ensures Losses(d)[i] > 0.0 {
        assert d[i] == s[i + 1] - s[i];
      }
    }
  }

  /** On a constant series every change is zero and RSI is 0/0: undefined (NaN). */
  lemma RsiOfConstantSeries(s: seq<real>, c: real, period: nat)
    requires period >= 1 && Constant(s, c)
    ensures Rsi(s, period) == None
  {
    var d := Deltas(s);
    assert AllZero(Gains(d)) && AllZero(Losses(d)) by {
      forall i | 0 <= i < |d| ensures Gains(d)[i] == 0.0 && Losses(d)[i] == 0.0 {
        assert d[i] == s[i + 1] - s[i];
      }
    }
  }

  // ---------------------------------------------------------------------------
  // Bollinger bands
  // ---------------------------------------------------------------------------

  datatype Bands = Bands(middle: real, upper: real, lower: real)

  function Sum(xs: seq<real>): real
  {
    if |xs| == 0 then 0.0 else Sum(xs[..|xs| - 1]) + xs[|xs| - 1]
  }

  lemma {:induction false} SumBounds(xs: seq<real>, lo: real, hi: real)
    requires forall i :: 0 <= i < |xs| ==> lo <= xs[i] <= hi
    ensures |xs| as real * lo <= Sum(xs) <= |xs| as real * hi
  {
    if |xs| > 0 {
      SumBounds(xs[..|xs| - 1], lo, hi);
    }
  }

  function Mean(xs: seq<real>): real
    requires |xs| > 0
  {
    Sum(xs) / |xs| as real
  }

  /** The last `period` prices: the rolling window at the latest position. */
  function Window(s: seq<real>, period: nat): (w: seq<real>)
    requires period <= |s|
    ensures |w| == period
  {
    s[|s| - period..]
  }

  /** `bollinger_bands` at the latest position: the middle band is the mean of the last
      `period` prices and the outer bands lie `k * std` away from it. The rolling
      standard deviation `std` of that window is an input. Undefined until `period`
      prices are available. */
  function BollingerBands(s: seq<real>, period: nat, k: real, std: real): (r: Option<Bands>)
    requires period >= 1
    ensures r.Some? <==> |s| >= period
    ensures r.Some? ==> r.value.middle * period as real == Sum(Window(s, period))
  {
    if |s| < period then None
    else
      var m := Mean(Window(s, period));
      Some(Bands(m, m + k * std, m - k * std))
  }

  /** The outer bands are symmetric around the middle band, and ordered when k and std
      are non-negative. */
  lemma BandsOrdered(s: seq<real>, period: nat, k: real, std: real)
    requires period >= 1 && |s| >= period
    ensures var b := BollingerBands(s, period, k, std).value;
      b.upper - b.middle == b.middle - b.lower == k * std
    ensures k >= 0.0 && std >= 0.0 ==>
      var b := BollingerBands(s, period, k, std).value;
      b.upper >= b.middle >= b.lower
  {
    assert k >= 0.0 && std >= 0.0 ==> k * std >= 0.0;
  }

  /** The middle band lies between the smallest and the largest price of the window. */
  lemma MiddleBandBetween(s: seq<real>, period: nat, k: real, std: real, lo: real, hi: real)
    requires period >= 1 && |s| >= period
    requires forall i :: |s| - period <= i < |s| ==> lo <= s[i] <= hi
    ensures lo <= BollingerBands(s, period, k, std).value.middle <= hi
  {
    var w := Window(s, period);
    SumBounds(w, lo, hi);
    var m := BollingerBands(s, period, k, std).value.middle;
    assert m * period as real == Sum(w);
  }
}
