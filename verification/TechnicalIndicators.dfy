/** EMA, MACD and Wilder's RSI of app/analysis/technical_analyzer.py, and the laws they obey.
    Prices are exact; a bar is a position in the series of closes. */
module TechnicalIndicators {
  import opened Wrappers

  function Total(xs: seq<real>): real {
    if xs == [] then 0.0 else xs[0] + Total(xs[1..])
  }

  function Mean(xs: seq<real>): real
    requires xs != []
  {
    Total(xs) / (|xs| as real)
  }

  method SumOfFirst(xs: seq<real>, n: nat) returns (total: real)
    requires n <= |xs|
    ensures total == Total(xs[..n])
  {
    total := 0.0;
    var i := n;
    while i > 0
      invariant 0 <= i <= n
      invariant total == Total(xs[i..n])
    {
      i := i - 1;
      assert xs[i..n][1..] == xs[i + 1..n];
      total := xs[i] + total;
    }
  }

  // ---------------------------------------------------------------- EMA

  function Alpha(period: nat): real
    requires period > 0
  {
    2.0 / ((period + 1) as real)
  }

  function Blend(current: real, prev: real, alpha: real): real {
    current * alpha + prev * (1.0 - alpha)
  }

  /** The EMA at a bar: the mean of the first `period` values, then exponential blending. */
  function EmaAt(values: seq<real>, period: nat, bar: nat): real
    requires 1 <= period <= bar + 1 <= |values|
    decreases bar
  {
    if bar == period - 1 then Mean(values[..period])
    else Blend(values[bar], EmaAt(values, period, bar - 1), Alpha(period))
  }

  /** The k-th entry of the series is the EMA of bar period - 1 + k; there is a series exactly when
      the period is positive and covered by the values. */
  ghost predicate IsEmaSeries(series: Option<seq<real>>, values: seq<real>, period: int) {
    if period <= 0 || |values| < period then series.None?
    else series.Some? && |series.value| == |values| - period + 1
         && forall k :: 0 <= k < |series.value| ==> series.value[k] == EmaAt(values, period, period - 1 + k)
  }

  lemma EmaStep(values: seq<real>, period: nat, bar: nat, prev: real, alpha: real, next: real)
    requires 1 <= period <= bar < |values|
    requires prev == EmaAt(values, period, bar - 1) && alpha == Alpha(period)
    requires next == values[bar] * alpha + prev * (1.0 - alpha)
    ensures next == EmaAt(values, period, bar)
  {
  }

  method ExponentialMovingAverage(values: seq<real>, period: int) returns (result: Option<seq<real>>)
    ensures IsEmaSeries(result, values, period)
  {
    if period <= 0 || |values| < period {
      return None;
    }
    var seed := SumOfFirst(values, period);
    seed := seed / (period as real);
    assert seed == EmaAt(values, period, period - 1);
    hide EmaAt;
    var alpha := 2.0 / ((period + 1) as real);
    var oneMinusAlpha := 1.0 - alpha;
    var series := [seed];
    for i := period to |values|
      invariant |series| == i - period + 1
      invariant forall k :: 0 <= k < |series| ==> series[k] == EmaAt(values, period, period - 1 + k)
    {
      var prev := series[|series| - 1];
      var next := values[i] * alpha + prev * oneMinusAlpha;
      EmaStep(values, period, i, prev, alpha, next);
      series := series + [next];
    }
    result := Some(series);
  }

  /** The EMA of a prefix is a prefix of the EMA. */
  lemma {:induction false} EmaIsCausal(values: seq<real>, period: nat, n: nat, bar: nat)
    requires 1 <= period <= bar + 1 <= n <= |values|
    ensures EmaAt(values[..n], period, bar) == EmaAt(values, period, bar)
    decreases bar
  {
    if bar == period - 1 {
      assert values[..n][..period] == values[..period];
    } else {
      EmaIsCausal(values, period, n, bar - 1);
    }
  }

  function Combine(a: real, xs: seq<real>, b: real, ys: seq<real>): (zs: seq<real>)
    requires |xs| == |ys|
    ensures |zs| == |xs| && forall i :: 0 <= i < |xs| ==> zs[i] == a * xs[i] + b * ys[i]
  {
    seq(|xs|, i requires 0 <= i < |xs| => a * xs[i] + b * ys[i])
  }

  lemma CombineSlice(a: real, xs: seq<real>, b: real, ys: seq<real>, from: nat, to: nat)
    requires |xs| == |ys| && from <= to <= |xs|
    ensures Combine(a, xs, b, ys)[from..to] == Combine(a, xs[from..to], b, ys[from..to])
  {
    var zs, part := Combine(a, xs, b, ys), Combine(a, xs[from..to], b, ys[from..to]);
    forall i | 0 <= i < to - from ensures zs[from..to][i] == part[i] {
      assert xs[from..to][i] == xs[from + i] && ys[from..to][i] == ys[from + i];
    }
  }

  lemma {:induction false} TotalIsLinear(a: real, xs: seq<real>, b: real, ys: seq<real>)
    requires |xs| == |ys|
    ensures Total(Combine(a, xs, b, ys)) == a * Total(xs) + b * Total(ys)
  {
    if xs != [] {
      TotalIsLinear(a, xs[1..], b, ys[1..]);
      CombineSlice(a, xs, b, ys, 1, |xs|);
      assert xs[1..|xs|] == xs[1..] && ys[1..|xs|] == ys[1..];
      assert Combine(a, xs, b, ys)[1..|xs|] == Combine(a, xs, b, ys)[1..];
      Distribute(a, xs[0], Total(xs[1..]));
      Distribute(b, ys[0], Total(ys[1..]));
    }
  }

  lemma Distribute(a: real, x: real, y: real)
    ensures a * (x + y) == a * x + a * y
  {
  }

  lemma DivideLinear(a: real, x: real, b: real, y: real, z: real, n: real)
    requires n > 0.0 && z == a * x + b * y
    ensures z / n == a * (x / n) + b * (y / n)
  {
    var p, q := x / n, y / n;
    assert p * n == x && q * n == y;
    assert a * x == (a * p) * n && b * y == (b * q) * n;
    assert z == (a * p + b * q) * n;
  }

  lemma BlendIsLinear(z1: real, z0: real, a: real, x1: real, x0: real, b: real, y1: real, y0: real, alpha: real)
    requires z1 == a * x1 + b * y1 && z0 == a * x0 + b * y0
    ensures Blend(z1, z0, alpha) == a * Blend(x1, x0, alpha) + b * Blend(y1, y0, alpha)
  {
    var beta := 1.0 - alpha;
    assert (a * x1 + b * y1) * alpha == a * (x1 * alpha) + b * (y1 * alpha);
    assert (a * x0 + b * y0) * beta == a * (x0 * beta) + b * (y0 * beta);
    Distribute(a, x1 * alpha, x0 * beta);
    Distribute(b, y1 * alpha, y0 * beta);
  }

  lemma MeanIsLinear(a: real, xs: seq<real>, b: real, ys: seq<real>, period: nat)
    requires |xs| == |ys| && 1 <= period <= |xs|
    ensures Mean(Combine(a, xs, b, ys)[..period]) == a * Mean(xs[..period]) + b * Mean(ys[..period])
  {
    hide Total, Combine;
    CombineSlice(a, xs, b, ys, 0, period);
    var zs, front, back := Combine(a, xs, b, ys), xs[..period], ys[..period];
    assert zs[0..period] == zs[..period] && xs[0..period] == front && ys[0..period] == back;
    TotalIsLinear(a, front, b, back);
    DivideLinear(a, Total(front), b, Total(back), Total(zs[..period]), period as real);
  }

  /** The EMA of a linear combination is the combination of the EMAs. */
  lemma {:induction false} EmaIsLinear(a: real, xs: seq<real>, b: real, ys: seq<real>, period: nat, bar: nat)
    requires |xs| == |ys| && 1 <= period <= bar + 1 <= |xs|
    ensures EmaAt(Combine(a, xs, b, ys), period, bar) == a * EmaAt(xs, period, bar) + b * EmaAt(ys, period, bar)
    decreases bar
  {
    hide Mean, Blend, Alpha;
    if bar == period - 1 {
      MeanIsLinear(a, xs, b, ys, period);
    } else {
      EmaIsLinear(a, xs, b, ys, period, bar - 1);
      var zs := Combine(a, xs, b, ys);
      BlendIsLinear(zs[bar], EmaAt(zs, period, bar - 1), a, xs[bar], EmaAt(xs, period, bar - 1),
                    b, ys[bar], EmaAt(ys, period, bar - 1), Alpha(period));
    }
  }

  lemma {:induction false} TotalBetween(xs: seq<real>, lo: real, hi: real)
    requires forall i :: 0 <= i < |xs| ==> lo <= xs[i] <= hi
    ensures lo * (|xs| as real) <= Total(xs) <= hi * (|xs| as real)
  {
    if xs != [] {
      TotalBetween(xs[1..], lo, hi);
      var n := |xs[1..]| as real;
      assert |xs| as real == n + 1.0;
      Distribute(lo, n, 1.0);
      Distribute(hi, n, 1.0);
    }
  }

  lemma QuotientBetween(x: real, lo: real, hi: real, n: real)
    requires n > 0.0 && lo * n <= x <= hi * n
    ensures lo <= x / n <= hi
  {
    var q := x / n;
    assert q * n == x;
    assert (q - lo) * n >= 0.0 && (hi - q) * n >= 0.0;
  }

  lemma BlendBetween(x: real, y: real, lo: real, hi: real, alpha: real)
    requires lo <= x <= hi && lo <= y <= hi && 0.0 <= alpha <= 1.0
    ensures lo <= Blend(x, y, alpha) <= hi
  {
    assert (x - lo) * alpha >= 0.0 && (y - lo) * (1.0 - alpha) >= 0.0;
    assert (hi - x) * alpha >= 0.0 && (hi - y) * (1.0 - alpha) >= 0.0;
  }

  /** The EMA stays between the least and the greatest value seen so far. */
  lemma {:induction false} EmaBetween(values: seq<real>, period: nat, bar: nat, lo: real, hi: real)
    requires 1 <= period <= bar + 1 <= |values|
    requires forall i :: 0 <= i <= bar ==> lo <= values[i] <= hi
    ensures lo <= EmaAt(values, period, bar) <= hi
    decreases bar
  {
    if bar == period - 1 {
      TotalBetween(values[..period], lo, hi);
      QuotientBetween(Total(values[..period]), lo, hi, period as real);
    } else {
      EmaBetween(values, period, bar - 1, lo, hi);
      QuotientBetween(2.0, 0.0, 1.0, (period + 1) as real);
      BlendBetween(values[bar], EmaAt(values, period, bar - 1), lo, hi, Alpha(period));
    }
  }

  // ---------------------------------------------------------------- MACD

  /** s[-n:] for positive n. */
  function LastOf(s: seq<real>, n: nat): seq<real> {
    if n <= |s| then s[|s| - n..] else s
  }

  /** Differences of two series, as far as both reach. */
  function ZipDiff(f: seq<real>, s: seq<real>): (d: seq<real>)
    ensures |d| == if |f| < |s| then |f| else |s|
    ensures forall k :: 0 <= k < |d| ==> d[k] == f[k] - s[k]
  {
    var n := if |f| < |s| then |f| else |s|;
    seq(n, k requires 0 <= k < n => f[k] - s[k])
  }

  function MaxNat(a: nat, b: nat): nat {
    if a > b then a else b
  }

  /** The bar whose slow EMA the code pairs with the fast EMA of `bar`. */
  function PairedBar(fast: nat, slow: nat, bar: nat): int {
    if fast > slow then bar - (fast - slow) else bar
  }

  /** The difference the code forms at a bar. */
  function MacdAt(closes: seq<real>, fast: nat, slow: nat, bar: nat): real
    requires 1 <= fast && 1 <= slow && MaxNat(fast, slow) <= bar + 1 <= |closes|
  {
    EmaAt(closes, fast, bar) - EmaAt(closes, slow, PairedBar(fast, slow, bar))
  }

  function MacdSeries(closes: seq<real>, fast: nat, slow: nat): (d: seq<real>)
    requires 1 <= fast && 1 <= slow && MaxNat(fast, slow) <= |closes|
    ensures |d| == |closes| - MaxNat(fast, slow) + 1
    ensures forall k :: 0 <= k < |d| ==> d[k] == MacdAt(closes, fast, slow, MaxNat(fast, slow) - 1 + k)
  {
    var first := MaxNat(fast, slow) - 1;
    seq(|closes| - first, k requires 0 <= k < |closes| - first => MacdAt(closes, fast, slow, first + k))
  }

  /** The value of the last bar, and a signal line when the MACD series reaches its period. */
  method ComputeMacd(closes: seq<real>, fastPeriod: int, slowPeriod: int, signalPeriod: int)
    returns (macd: Option<real>, signal: Option<real>)
    ensures macd.Some? <==> 1 <= fastPeriod <= |closes| && 1 <= slowPeriod <= |closes|
    ensures macd.Some? ==> macd.value == MacdAt(closes, fastPeriod, slowPeriod, |closes| - 1)
    ensures signal.Some? <==> macd.Some? && 1 <= signalPeriod <= |MacdSeries(closes, fastPeriod, slowPeriod)|
    ensures signal.Some? ==>
              var series := MacdSeries(closes, fastPeriod, slowPeriod);
              signal.value == EmaAt(series, signalPeriod, |series| - 1)
  {
    if |closes| < slowPeriod {
      return None, None;
    }
    var fastSeries := ExponentialMovingAverage(closes, fastPeriod);
    var slowSeries := ExponentialMovingAverage(closes, slowPeriod);
    if fastSeries.None? || slowSeries.None? {
      return None, None;
    }
    var alignedFast := LastOf(fastSeries.value, |slowSeries.value|);
    var macdSeries := ZipDiff(alignedFast, slowSeries.value);
    assert macdSeries == MacdSeries(closes, fastPeriod, slowPeriod);
    macd := Some(macdSeries[|macdSeries| - 1]);
    if |macdSeries| < signalPeriod {
      return macd, None;
    }
    var signalSeries := ExponentialMovingAverage(macdSeries, signalPeriod);
    if signalSeries.None? {
      return macd, None;
    }
    signal := Some(signalSeries.value[|signalSeries.value| - 1]);
  }

  /** With the fast period not above the slow one, MACD subtracts EMAs of the same bar, at every
      index; and there is a signal exactly from slow + signal - 1 closes on. */
  lemma MacdSubtractsSameBar(closes: seq<real>, fast: nat, slow: nat, signal: nat, k: nat)
    requires 1 <= fast <= slow <= |closes| && signal >= 1
    requires k < |MacdSeries(closes, fast, slow)|
    ensures MacdSeries(closes, fast, slow)[k] == EmaAt(closes, fast, slow - 1 + k) - EmaAt(closes, slow, slow - 1 + k)
    ensures signal <= |MacdSeries(closes, fast, slow)| <==> |closes| >= slow + signal - 1
  {
  }

  /** Zeros, then a single 1. */
  function Spike(n: nat): seq<real> {
    seq(n, i => if i == n - 1 then 1.0 else 0.0)
  }

  lemma SpikeMisaligns(fast: nat, slow: nat)
    requires 1 <= slow < fast
    ensures MacdAt(Spike(fast), fast, slow, fast - 1)
            != EmaAt(Spike(fast), fast, fast - 1) - EmaAt(Spike(fast), slow, fast - 1)
  {
    EmaBetween(Spike(fast), slow, slow - 1, 0.0, 0.0);
    EmaBetween(Spike(fast), slow, fast - 2, 0.0, 0.0);
    assert EmaAt(Spike(fast), slow, fast - 1) == Alpha(slow);
    assert Alpha(slow) > 0.0;
  }

  /** MACD's last value is the difference of the two EMAs of the last bar, for every series of
      closes, exactly when the fast period is not above the slow one. */
  lemma MacdAlignedExactly(fast: nat, slow: nat)
    requires 1 <= fast && 1 <= slow
    ensures (forall closes: seq<real> :: |closes| >= MaxNat(fast, slow) ==>
               MacdAt(closes, fast, slow, |closes| - 1)
               == EmaAt(closes, fast, |closes| - 1) - EmaAt(closes, slow, |closes| - 1))
            <==> fast <= slow
  {
    if fast > slow {
      SpikeMisaligns(fast, slow);
      assert |Spike(fast)| == fast;
    }
  }

  function Shifted(values: seq<real>, delta: real): (r: seq<real>)
    ensures |r| == |values| && forall i :: 0 <= i < |values| ==> r[i] == values[i] + delta
  {
    seq(|values|, i requires 0 <= i < |values| => values[i] + delta)
  }

  lemma EmaShifts(values: seq<real>, delta: real, period: nat, bar: nat)
    requires 1 <= period <= bar + 1 <= |values|
    ensures EmaAt(Shifted(values, delta), period, bar) == EmaAt(values, period, bar) + delta
  {
    var flat := seq(|values|, i => delta);
    assert Shifted(values, delta) == Combine(1.0, values, 1.0, flat);
    EmaIsLinear(1.0, values, 1.0, flat, period, bar);
    EmaBetween(flat, period, bar, delta, delta);
  }

  /** Adding a constant to all closes changes no MACD value, and so no signal. */
  lemma MacdIgnoresShift(closes: seq<real>, delta: real, fast: nat, slow: nat)
    requires 1 <= fast && 1 <= slow && MaxNat(fast, slow) <= |closes|
    ensures MacdSeries(Shifted(closes, delta), fast, slow) == MacdSeries(closes, fast, slow)
  {
    var n := |MacdSeries(closes, fast, slow)|;
    forall k | 0 <= k < n
      ensures MacdSeries(Shifted(closes, delta), fast, slow)[k] == MacdSeries(closes, fast, slow)[k]
    {
      var bar := MaxNat(fast, slow) - 1 + k;
      EmaShifts(closes, delta, fast, bar);
      EmaShifts(closes, delta, slow, PairedBar(fast, slow, bar));
    }
  }

  // ---------------------------------------------------------------- RSI

  function Gain(diff: real): real {
    if diff >= 0.0 then diff else 0.0
  }

  function Loss(diff: real): real {
    if diff >= 0.0 then 0.0 else -diff
  }

  function Gains(closes: seq<real>): (g: seq<real>)
    requires closes != []
    ensures |g| == |closes| - 1 && forall i :: 0 <= i < |g| ==> g[i] == Gain(closes[i + 1] - closes[i])
  {
    seq(|closes| - 1, i requires 0 <= i < |closes| - 1 => Gain(closes[i + 1] - closes[i]))
  }

  function Losses(closes: seq<real>): (g: seq<real>)
    requires closes != []
    ensures |g| == |closes| - 1 && forall i :: 0 <= i < |g| ==> g[i] == Loss(closes[i + 1] - closes[i])
  {
    seq(|closes| - 1, i requires 0 <= i < |closes| - 1 => Loss(closes[i + 1] - closes[i]))
  }

  function Smooth(average: real, x: real, period: nat): real
    requires period > 0
  {
    (average * ((period - 1) as real) + x) / (period as real)
  }

  /** Wilder's average: the mean of the first `period` changes, then smoothing. */
  function WilderAt(xs: seq<real>, period: nat, i: nat): real
    requires 1 <= period <= i + 1 <= |xs|
    decreases i
  {
    if i == period - 1 then Mean(xs[..period]) else Smooth(WilderAt(xs, period, i - 1), xs[i], period)
  }

  function RsiOf(avgGain: real, avgLoss: real): real
    requires avgGain >= 0.0 && avgLoss >= 0.0
  {
    if avgLoss == 0.0 then if avgGain == 0.0 then 50.0 else 100.0
    else RsiRatio(avgGain / avgLoss)
  }

  function RsiRatio(rs: real): real
    requires rs != -1.0
  {
    100.0 - 100.0 / (1.0 + rs)
  }

  function Rsi(closes: seq<real>, period: nat): real
    requires 1 <= period < |closes|
  {
    hide WilderAt;
    WilderNonNegative(Gains(closes), period, |closes| - 2);
    WilderNonNegative(Losses(closes), period, |closes| - 2);
    RsiOf(WilderAt(Gains(closes), period, |closes| - 2), WilderAt(Losses(closes), period, |closes| - 2))
  }

  lemma {:induction false} WilderNonNegative(xs: seq<real>, period: nat, i: nat)
    requires 1 <= period <= i + 1 <= |xs|
    requires forall k :: 0 <= k < |xs| ==> xs[k] >= 0.0
    ensures WilderAt(xs, period, i) >= 0.0
    decreases i
  {
    if i == period - 1 {
      TotalNonNegative(xs[..period]);
    } else {
      WilderNonNegative(xs, period, i - 1);
      assert WilderAt(xs, period, i - 1) * ((period - 1) as real) >= 0.0;
    }
  }

  lemma {:induction false} TotalNonNegative(xs: seq<real>)
    requires forall k :: 0 <= k < |xs| ==> xs[k] >= 0.0
    ensures Total(xs) >= 0.0
  {
    if xs != [] { TotalNonNegative(xs[1..]); }
  }

  lemma ChangesNonNegative(closes: seq<real>)
    requires closes != []
    ensures forall k :: 0 <= k < |closes| - 1 ==> Gains(closes)[k] >= 0.0 && Losses(closes)[k] >= 0.0
  {
  }

  lemma GainsAre(gains: seq<real>, losses: seq<real>, closes: seq<real>)
    requires |gains| == |losses| == |closes| - 1
    requires forall k :: 0 <= k < |gains| ==> gains[k] == Gain(closes[k + 1] - closes[k])
    requires forall k :: 0 <= k < |losses| ==> losses[k] == Loss(closes[k + 1] - closes[k])
    ensures gains == Gains(closes) && losses == Losses(closes)
  {
    var g, l := Gains(closes), Losses(closes);
    assert |g| == |gains| && forall k :: 0 <= k < |g| ==> g[k] == gains[k];
    assert |l| == |losses| && forall k :: 0 <= k < |l| ==> l[k] == losses[k];
  }

  method GainsAndLosses(closes: seq<real>) returns (gains: seq<real>, losses: seq<real>)
    requires closes != []
    ensures gains == Gains(closes) && losses == Losses(closes)
  {
    hide Gains, Losses;
    gains, losses := [], [];
    for i := 1 to |closes|
      invariant |gains| == |losses| == i - 1
      invariant forall k :: 0 <= k < i - 1 ==> gains[k] == Gain(closes[k + 1] - closes[k])
      invariant forall k :: 0 <= k < i - 1 ==> losses[k] == Loss(closes[k + 1] - closes[k])
    {
      var diff := closes[i] - closes[i - 1];
      if diff >= 0.0 {
        gains, losses := gains + [diff], losses + [0.0];
      } else {
        gains, losses := gains + [0.0], losses + [-diff];
      }
    }
    GainsAre(gains, losses, closes);
  }

  method WilderAverages(gains: seq<real>, losses: seq<real>, period: nat) returns (avgGain: real, avgLoss: real)
    requires |gains| == |losses| && 1 <= period <= |gains|
    ensures avgGain == WilderAt(gains, period, |gains| - 1)
    ensures avgLoss == WilderAt(losses, period, |gains| - 1)
  {
    avgGain := SumOfFirst(gains, period);
    avgLoss := SumOfFirst(losses, period);
    avgGain, avgLoss := avgGain / (period as real), avgLoss / (period as real);
    for i := period to |gains|
      invariant avgGain == WilderAt(gains, period, i - 1) && avgLoss == WilderAt(losses, period, i - 1)
    {
      avgGain := Smooth(avgGain, gains[i], period);
      avgLoss := Smooth(avgLoss, losses[i], period);
    }
  }

  /** The closing formula, with the cases of no losses. */
  method RsiFromAverages(avgGain: real, avgLoss: real) returns (rsi: real)
    requires avgGain >= 0.0 && avgLoss >= 0.0
    ensures rsi == RsiOf(avgGain, avgLoss)
  {
    if avgLoss == 0.0 {
      if avgGain == 0.0 {
        return 50.0;
      }
      return 100.0;
    }
    var rs := avgGain / avgLoss;
    RsiOfRatio(avgGain, avgLoss, rs);
    rsi := 100.0 - 100.0 / (1.0 + rs);
  }

  method RelativeStrengthIndex(closes: seq<real>, period: int) returns (result: Option<real>)
    ensures result.Some? <==> 1 <= period < |closes|
    ensures result.Some? ==> result.value == Rsi(closes, period)
  {
    hide WilderAt, RsiOf, Gains, Losses;
    if period <= 0 || |closes| < period + 1 {
      return None;
    }
    var gains, losses := GainsAndLosses(closes);
    var avgGain, avgLoss := WilderAverages(gains, losses, period);
    ChangesNonNegative(closes);
    WilderNonNegative(gains, period, |gains| - 1);
    WilderNonNegative(losses, period, |losses| - 1);
    var rsi := RsiFromAverages(avgGain, avgLoss);
    result := Some(rsi);
  }

  lemma RsiOfRatio(avgGain: real, avgLoss: real, rs: real)
    requires avgGain >= 0.0 && avgLoss > 0.0 && rs == avgGain / avgLoss
    ensures rs >= 0.0 && RsiOf(avgGain, avgLoss) == 100.0 - 100.0 / (1.0 + rs)
  {
    QuotientNonNegative(avgGain, avgLoss);
  }

  lemma QuotientNonNegative(x: real, n: real)
    requires x >= 0.0 && n > 0.0
    ensures x / n >= 0.0
  {
  }

  lemma RatioInRange(rs: real)
    requires rs >= 0.0
    ensures 0.0 <= RsiRatio(rs) <= 100.0
  {
    var q := 100.0 / (1.0 + rs);
    assert q * (1.0 + rs) == 100.0;
    QuotientBetween(100.0, 0.0, 100.0, 1.0 + rs);
  }

  lemma RsiOfInRange(g: real, l: real)
    requires g >= 0.0 && l >= 0.0
    ensures 0.0 <= RsiOf(g, l) <= 100.0
  {
    if l > 0.0 {
      QuotientBetween(g, 0.0, g / l, l);
      RatioInRange(g / l);
    }
  }

  /** For positive losses RSI is the share of gains in all change. */
  lemma RsiIsGainShare(g: real, l: real)
    requires g >= 0.0 && l > 0.0
    ensures RsiOf(g, l) * (g + l) == 100.0 * g
  {
    var rs := g / l;
    assert rs * l == g;
    QuotientBetween(g, 0.0, rs, l);
    var q := 100.0 / (1.0 + rs);
    assert q * (1.0 + rs) == 100.0;
    assert (1.0 + rs) * l == l + g;
    calc {
      q * (g + l);
      q * ((1.0 + rs) * l);
      (q * (1.0 + rs)) * l;
      100.0 * l;
    }
    assert (100.0 - q) * (g + l) == 100.0 * (g + l) - q * (g + l);
  }

  lemma CancelFactor(x: real, y: real, s: real)
    requires s > 0.0 && x * s == y * s
    ensures x == y
  {
    assert (x - y) * s == 0.0;
  }

  lemma RsiOfMirrors(g: real, l: real)
    requires g >= 0.0 && l >= 0.0
    ensures RsiOf(l, g) == 100.0 - RsiOf(g, l)
  {
    if g > 0.0 && l > 0.0 {
      RsiIsGainShare(g, l);
      RsiIsGainShare(l, g);
      assert (RsiOf(l, g) + RsiOf(g, l)) * (g + l) == 100.0 * (g + l);
      CancelFactor(RsiOf(l, g) + RsiOf(g, l), 100.0, g + l);
    } else if g == 0.0 && l > 0.0 {
      assert 0.0 / l == 0.0;
    } else if l == 0.0 && g > 0.0 {
      assert 0.0 / g == 0.0;
    }
  }

  lemma RsiOfScales(g': real, l': real, g: real, l: real, a: real)
    requires g >= 0.0 && l >= 0.0 && a > 0.0 && g' == a * g && l' == a * l
    ensures g' >= 0.0 && l' >= 0.0 && RsiOf(g', l') == RsiOf(g, l)
  {
    if l > 0.0 {
      assert l' > 0.0;
      var p, q := g / l, g' / l';
      assert p * l == g && q * l' == g';
      assert p * (a * l) == a * (p * l);
      CancelFactor(q, p, l');
    }
  }

  lemma {:induction false} TotalScales(xs: seq<real>, ys: seq<real>, a: real)
    requires |xs| == |ys| && forall k :: 0 <= k < |xs| ==> ys[k] == a * xs[k]
    ensures Total(ys) == a * Total(xs)
  {
    if xs != [] {
      TotalScales(xs[1..], ys[1..], a);
      Distribute(a, xs[0], Total(xs[1..]));
    }
  }

  lemma SmoothScales(w': real, x': real, w: real, x: real, a: real, period: nat)
    requires period > 0 && w' == a * w && x' == a * x
    ensures Smooth(w', x', period) == a * Smooth(w, x, period)
  {
    var m, n := (period - 1) as real, period as real;
    var y := w * m + x;
    assert (a * w) * m == a * (w * m);
    Distribute(a, w * m, x);
    assert w' * m + x' == a * y;
    DivideScales(w' * m + x', a, y, n);
  }

  lemma DivideScales(z: real, a: real, y: real, n: real)
    requires n > 0.0 && z == a * y
    ensures z / n == a * (y / n)
  {
    var q := y / n;
    assert q * n == y;
    assert (a * q) * n == a * (q * n) == z;
  }

  lemma {:induction false} WilderScales(xs: seq<real>, ys: seq<real>, a: real, period: nat, i: nat)
    requires 1 <= period <= i + 1 <= |xs|
    requires |xs| == |ys| && forall k :: 0 <= k < |xs| ==> ys[k] == a * xs[k]
    ensures WilderAt(ys, period, i) == a * WilderAt(xs, period, i)
    decreases i
  {
    hide Smooth;
    if i == period - 1 {
      TotalScales(xs[..period], ys[..period], a);
      DivideScales(Total(ys[..period]), a, Total(xs[..period]), period as real);
    } else {
      WilderScales(xs, ys, a, period, i - 1);
      SmoothScales(WilderAt(ys, period, i - 1), ys[i], WilderAt(xs, period, i - 1), xs[i], a, period);
    }
  }

  /** RSI always lies between 0 and 100. */
  lemma RsiInRange(closes: seq<real>, period: nat)
    requires 1 <= period < |closes|
    ensures 0.0 <= Rsi(closes, period) <= 100.0
  {
    hide WilderAt, RsiOf;
    WilderNonNegative(Gains(closes), period, |closes| - 2);
    WilderNonNegative(Losses(closes), period, |closes| - 2);
    RsiOfInRange(WilderAt(Gains(closes), period, |closes| - 2), WilderAt(Losses(closes), period, |closes| - 2));
  }

  function Reflected(closes: seq<real>, k: real): (r: seq<real>)
    ensures |r| == |closes| && forall i :: 0 <= i < |closes| ==> r[i] == k - closes[i]
  {
    seq(|closes|, i requires 0 <= i < |closes| => k - closes[i])
  }

  /** Mirror law: reflecting the prices turns RSI into 100 - RSI, also when there are no gains,
      no losses or no change at all. */
  lemma RsiOfReflection(closes: seq<real>, period: nat, k: real)
    requires 1 <= period < |closes|
    ensures Rsi(Reflected(closes, k), period) == 100.0 - Rsi(closes, period)
  {
    var mirror := Reflected(closes, k);
    assert Gains(mirror) == Losses(closes);
    assert Losses(mirror) == Gains(closes);
    var i := |closes| - 2;
    WilderNonNegative(Gains(closes), period, i);
    WilderNonNegative(Losses(closes), period, i);
    RsiOfMirrors(WilderAt(Gains(closes), period, i), WilderAt(Losses(closes), period, i));
  }

  function Affine(closes: seq<real>, a: real, b: real): (r: seq<real>)
    ensures |r| == |closes| && forall i :: 0 <= i < |closes| ==> r[i] == a * closes[i] + b
  {
    seq(|closes|, i requires 0 <= i < |closes| => a * closes[i] + b)
  }

  lemma GainScales(d': real, a: real, d: real)
    requires a > 0.0 && d' == a * d
    ensures Gain(d') == a * Gain(d) && Loss(d') == a * Loss(d)
  {
    if d >= 0.0 {
      assert a * d >= 0.0;
    } else {
      assert a * (-d) > 0.0;
    }
  }

  lemma AffineChange(x': real, y': real, a: real, x: real, y: real, b: real)
    requires x' == a * x + b && y' == a * y + b
    ensures x' - y' == a * (x - y)
  {
  }

  lemma AffineChanges(closes: seq<real>, scaled: seq<real>, a: real, b: real, i: nat)
    requires a > 0.0 && i < |closes| - 1 && scaled == Affine(closes, a, b)
    ensures Gains(scaled)[i] == a * Gains(closes)[i] && Losses(scaled)[i] == a * Losses(closes)[i]
  {
    hide Gain, Loss, Affine, Gains, Losses;
    AffineChange(scaled[i + 1], scaled[i], a, closes[i + 1], closes[i], b);
    GainScales(scaled[i + 1] - scaled[i], a, closes[i + 1] - closes[i]);
  }

  /** RSI depends on neither the level nor the currency unit of the prices. */
  lemma RsiIgnoresScaleAndShift(closes: seq<real>, period: nat, a: real, b: real)
    requires 1 <= period < |closes| && a > 0.0
    ensures Rsi(Affine(closes, a, b), period) == Rsi(closes, period)
  {
    hide WilderAt, RsiOf, Affine, Gains, Losses;
    var scaled := Affine(closes, a, b);
    forall k | 0 <= k < |closes| - 1
      ensures Gains(scaled)[k] == a * Gains(closes)[k] && Losses(scaled)[k] == a * Losses(closes)[k]
    {
      AffineChanges(closes, scaled, a, b, k);
    }
    var i := |closes| - 2;
    ChangesNonNegative(closes);
    WilderScales(Gains(closes), Gains(scaled), a, period, i);
    WilderScales(Losses(closes), Losses(scaled), a, period, i);
    WilderNonNegative(Gains(closes), period, i);
    WilderNonNegative(Losses(closes), period, i);
    RsiOfScales(WilderAt(Gains(scaled), period, i), WilderAt(Losses(scaled), period, i),
                WilderAt(Gains(closes), period, i), WilderAt(Losses(closes), period, i), a);
  }

  // ---------------------------------------------------------------- what one price weighs

  function Power(x: real, n: nat): real {
    if n == 0 then 1.0 else x * Power(x, n - 1)
  }

  /** Zeros but for a 1 at one position. */
  function Impulse(n: nat, at: nat): (s: seq<real>)
    ensures |s| == n && forall i :: 0 <= i < n ==> s[i] == if i == at then 1.0 else 0.0
  {
    seq(n, i => if i == at then 1.0 else 0.0)
  }

  lemma {:induction false} ImpulseTotal(xs: seq<real>, at: nat)
    requires forall i :: 0 <= i < |xs| ==> xs[i] == if i == at then 1.0 else 0.0
    ensures Total(xs) == if at < |xs| then 1.0 else 0.0
  {
    if xs != [] {
      if at == 0 {
        ImpulseTotal(xs[1..], |xs|);
      } else {
        ImpulseTotal(xs[1..], at - 1);
      }
    }
  }

  lemma PowerStep(x: real, n: nat)
    requires n > 0
    ensures Power(x, n) == x * Power(x, n - 1)
  {
  }

  lemma BlendOfImpulse(prev: real, period: nat)
    requires period > 0
    ensures Blend(0.0, prev, Alpha(period)) == ((period - 1) as real / (period + 1) as real) * prev
    ensures prev == 0.0 ==> Blend(1.0, prev, Alpha(period)) == 2.0 / (period + 1) as real
    ensures prev == 0.0 ==> Blend(0.0, prev, Alpha(period)) == 0.0
  {
    var n := (period + 1) as real;
    assert (period - 1) as real == n - 2.0;
    assert (n - 2.0) / n == 1.0 - 2.0 / n;
  }

  lemma Regroup(x: real, w: real, y: real)
    ensures x * (w * y) == w * (x * y)
  {
  }

  /** What the EMA keeps of a single price: an equal share of the mean that starts it, or two parts in
      period + 1, and after each later bar (period - 1) / (period + 1) of what it kept before. */
  lemma {:induction false} EmaImpulse(n: nat, period: nat, at: nat, bar: nat)
    requires 1 <= period <= bar + 1 <= n
    ensures EmaAt(Impulse(n, at), period, bar) ==
            if at > bar then 0.0
            else if at < period then
              1.0 / (period as real) * Power((period - 1) as real / (period + 1) as real, bar - (period - 1))
            else 2.0 / (period + 1) as real * Power((period - 1) as real / (period + 1) as real, bar - at)
    decreases bar
  {
    hide Blend, Alpha, Power;
    var xs, keep := Impulse(n, at), (period - 1) as real / (period + 1) as real;
    PowerZero(keep);
    if bar == period - 1 {
      ImpulseTotal(xs[..period], at);
    } else {
      EmaImpulse(n, period, at, bar - 1);
      var prev := EmaAt(xs, period, bar - 1);
      BlendOfImpulse(prev, period);
      if at < bar {
        var age, w := if at < period then bar - (period - 1) else bar - at,
                      if at < period then 1.0 / (period as real) else 2.0 / (period + 1) as real;
        PowerStep(keep, age);
        Regroup(keep, w, Power(keep, age - 1));
      }
    }
  }

  lemma PowerZero(x: real)
    ensures Power(x, 0) == 1.0
  {
  }

  lemma SmoothOfImpulse(prev: real, period: nat)
    requires period > 0
    ensures Smooth(prev, 0.0, period) == ((period - 1) as real / period as real) * prev
    ensures prev == 0.0 ==> Smooth(prev, 1.0, period) == 1.0 / period as real
    ensures prev == 0.0 ==> Smooth(prev, 0.0, period) == 0.0
  {
    var n, m := period as real, (period - 1) as real;
    DivideScales(prev * m, prev, m, n);
  }

  /** What Wilder's average keeps of a single change: one part in period, and after each later bar
      (period - 1) / period of what it kept before. */
  lemma {:induction false} WilderImpulse(n: nat, period: nat, at: nat, bar: nat)
    requires 1 <= period <= bar + 1 <= n
    ensures WilderAt(Impulse(n, at), period, bar) ==
            if at > bar then 0.0
            else 1.0 / (period as real)
                 * Power((period - 1) as real / period as real, if at < period then bar - (period - 1) else bar - at)
    decreases bar
  {
    hide Smooth, Power;
    var xs, keep := Impulse(n, at), (period - 1) as real / period as real;
    PowerZero(keep);
    if bar == period - 1 {
      ImpulseTotal(xs[..period], at);
    } else {
      WilderImpulse(n, period, at, bar - 1);
      var prev := WilderAt(xs, period, bar - 1);
      SmoothOfImpulse(prev, period);
      if at < bar {
        var age := if at < period then bar - (period - 1) else bar - at;
        PowerStep(keep, age);
        Regroup(keep, 1.0 / (period as real), Power(keep, age - 1));
      }
    }
  }

  lemma SmoothIsLinear(z: real, x: real, y: real, zx: real, xx: real, yx: real, period: nat)
    requires period > 0 && z == x + y && zx == xx + yx
    ensures Smooth(z, zx, period) == Smooth(x, xx, period) + Smooth(y, yx, period)
  {
    var m, n := (period - 1) as real, period as real;
    assert z * m + zx == (x * m + xx) + (y * m + yx);
  }

  lemma {:induction false} TotalAdds(xs: seq<real>, ys: seq<real>, zs: seq<real>)
    requires |xs| == |ys| == |zs| && forall i :: 0 <= i < |zs| ==> zs[i] == xs[i] + ys[i]
    ensures Total(zs) == Total(xs) + Total(ys)
  {
    if zs != [] { TotalAdds(xs[1..], ys[1..], zs[1..]); }
  }

  /** Wilder's average of a sum is the sum of the averages; so what it keeps of each change tells all. */
  lemma {:induction false} WilderAdds(xs: seq<real>, ys: seq<real>, zs: seq<real>, period: nat, bar: nat)
    requires |xs| == |ys| == |zs| && forall i :: 0 <= i < |zs| ==> zs[i] == xs[i] + ys[i]
    requires 1 <= period <= bar + 1 <= |zs|
    ensures WilderAt(zs, period, bar) == WilderAt(xs, period, bar) + WilderAt(ys, period, bar)
    decreases bar
  {
    hide Smooth;
    if bar == period - 1 {
      TotalAdds(xs[..period], ys[..period], zs[..period]);
    } else {
      WilderAdds(xs, ys, zs, period, bar - 1);
      SmoothIsLinear(WilderAt(zs, period, bar - 1), WilderAt(xs, period, bar - 1), WilderAt(ys, period, bar - 1),
                     zs[bar], xs[bar], ys[bar], period);
    }
  }

  /** RSI reads the rises and the falls between consecutive closes, each as a positive number. */
  lemma ChangesExactly(closes: seq<real>, i: nat)
    requires i + 1 < |closes|
    ensures var d := closes[i + 1] - closes[i];
            && Gains(closes)[i] - Losses(closes)[i] == d
            && Gains(closes)[i] >= 0.0 && Losses(closes)[i] >= 0.0
               && (Gains(closes)[i] == 0.0 || Losses(closes)[i] == 0.0)
  {
  }
}
