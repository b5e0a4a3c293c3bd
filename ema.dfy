/** The exponential moving average of the scheduler (`calculate_ema` in
    scripts/start_trading.py): seeded by the simple mean of the first
    `period` closes, then folded over the remaining closes with weight
    k = 2 / (period + 1). Prices are exact reals. */
module Ema {
  import opened Common

  /** Python's `sum(s) / len(s)`. */
  function Mean(s: seq<real>): real
    requires |s| > 0
  {
    Sum(s) / (|s| as real)
  }

  /** The smoothing weight 2 / (period + 1). */
  function Weight(period: nat): (k: real)
    requires period >= 1
    ensures 0.0 < k <= 1.0
  {
    2.0 / ((period + 1) as real)
  }

  /** The average after folding in the first n closes (n >= period): the mean
      of the first `period` closes, then one smoothing step per further close. */
  function EmaAt(prices: seq<real>, period: nat, n: nat): real
    requires 1 <= period <= n <= |prices|
    decreases n
  {
    if n == period then Mean(prices[..period])
    else
      var k := Weight(period);
      prices[n - 1] * k + EmaAt(prices, period, n - 1) * (1.0 - k)
  }

  /** What `calculate_ema` returns: the plain mean when there are fewer closes
      than the period, the seeded average otherwise; dividing by an empty
      list or a zero period raises `ZeroDivisionError`. */
  function EmaSpec(prices: seq<real>, period: nat): (r: Result<real, Error>)
    ensures r.Err? <==> |prices| == 0 || period == 0
    ensures r.Err? ==> r.error == ZeroDivision
    ensures 0 < |prices| < period ==> r == Ok(Mean(prices))
  {
    if |prices| < period then
      if |prices| == 0 then Err(ZeroDivision) else Ok(Mean(prices))
    else if period == 0 then Err(ZeroDivision)
    else Ok(EmaAt(prices, period, |prices|))
  }

  /** The loop of `calculate_ema`. */
  method CalculateEma(prices: seq<real>, period: nat) returns (r: Result<real, Error>)
    ensures r == EmaSpec(prices, period)
  {
    if |prices| < period {
      if |prices| == 0 {
        return Err(ZeroDivision);
      }
      return Ok(Sum(prices) / (|prices| as real));
    }
    if period == 0 {
      return Err(ZeroDivision);
    }
    var multiplier := 2.0 / ((period + 1) as real);
    var ema := Sum(prices[..period]) / (period as real);
    var i := period;
    while i < |prices|
      invariant period <= i <= |prices|
      invariant ema == EmaAt(prices, period, i)
    {
      ema := prices[i] * multiplier + ema * (1.0 - multiplier);
      i := i + 1;
    }
    return Ok(ema);
  }

  /** One smoothing step is a convex combination, so it stays in [lo, hi]. */
  lemma ConvexStep(p: real, e: real, k: real, lo: real, hi: real)
    requires 0.0 <= k <= 1.0 && lo <= p <= hi && lo <= e <= hi
    ensures lo <= p * k + e * (1.0 - k) <= hi
  {
    assert (p - lo) * k >= 0.0;
    assert (e - lo) * (1.0 - k) >= 0.0;
    assert (hi - p) * k >= 0.0;
    assert (hi - e) * (1.0 - k) >= 0.0;
  }

  lemma WithinPrefix(s: seq<real>, n: nat, lo: real, hi: real)
    requires n <= |s| && Within(s, lo, hi)
    ensures Within(s[..n], lo, hi)
  {
    forall i | 0 <= i < n ensures lo <= s[..n][i] <= hi {
      assert s[..n][i] == s[i];
    }
  }

  lemma {:induction false} EmaAtWithin(prices: seq<real>, period: nat, n: nat, lo: real, hi: real)
    requires 1 <= period <= n <= |prices| && Within(prices, lo, hi)
    ensures lo <= EmaAt(prices, period, n) <= hi
    decreases n
  {
    if n == period {
      WithinPrefix(prices, period, lo, hi);
      MeanWithin(prices[..period], lo, hi);
    } else {
      EmaAtWithin(prices, period, n - 1, lo, hi);
      ConvexStep(prices[n - 1], EmaAt(prices, period, n - 1), Weight(period), lo, hi);
    }
  }

  /** Whenever the average is defined it lies between the least and the
      greatest close it was computed from. */
  lemma EmaBetweenExtremes(prices: seq<real>, period: nat)
    requires EmaSpec(prices, period).Ok?
    ensures MinOf(prices) <= EmaSpec(prices, period).value <= MaxOf(prices)
  {
    var lo, hi := MinOf(prices), MaxOf(prices);
    assert Within(prices, lo, hi);
    if |prices| < period {
      MeanWithin(prices, lo, hi);
    } else {
      EmaAtWithin(prices, period, |prices|, lo, hi);
    }
  }

  /** A constant price series averages to that price, whatever the period. */
  lemma ConstantSeries(prices: seq<real>, period: nat, c: real)
    requires EmaSpec(prices, period).Ok? && Within(prices, c, c)
    ensures EmaSpec(prices, period).value == c
  {
    var lo, hi := MinOf(prices), MaxOf(prices);
    EmaBetweenExtremes(prices, period);
    assert prices[0] == c;
    assert lo == c && hi == c;
  }
}
