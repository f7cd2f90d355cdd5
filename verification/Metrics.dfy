/** Win rate and average return over the rows whose horizon return is on file, quantized half-even
    to four digits as the backtest reports them. */
module Metrics {
  import opened Wrappers
  import opened Sequences
  import opened Decimals

  function Known<T>(value: T -> Option<real>): T -> bool {
    (row: T) => value(row).Some?
  }

  function ValueOf<T>(value: T -> Option<real>): T -> real {
    (row: T) => if value(row).Some? then value(row).value else 0.0
  }

  function Won<T>(value: T -> Option<real>): T -> bool {
    (row: T) => value(row).Some? && value(row).value > 0.0
  }

  /** How many rows have a return. */
  function Samples<T>(rows: seq<T>, value: T -> Option<real>): nat {
    CountOf(rows, Known(value))
  }

  function Ratio(x: real, n: nat): real {
    if n == 0 then 0.0 else x / (n as real)
  }

  function WinRate<T>(rows: seq<T>, value: T -> Option<real>): Option<real> {
    var n := Samples(rows, value);
    if n == 0 then None else Some(Quantize(Ratio(CountOf(rows, Won(value)) as real, n)))
  }

  function AvgReturn<T>(rows: seq<T>, value: T -> Option<real>): Option<real> {
    var n := Samples(rows, value);
    if n == 0 then None else Some(Quantize(Ratio(SumOf(rows, ValueOf(value)), n)))
  }

  /** Both metrics, computed as the code does: collect the known returns, then count, sum and divide. */
  method ComputeMetrics<T>(rows: seq<T>, value: T -> Option<real>)
    returns (winRate: Option<real>, avgReturn: Option<real>, missing: nat)
    ensures winRate == WinRate(rows, value) && avgReturn == AvgReturn(rows, value)
    ensures missing == |rows| - Samples(rows, value)
  {
    var nonNull: seq<real>, wins, total := [], 0, 0.0;
    for i := 0 to |rows|
      invariant |nonNull| == Samples(rows[..i], value) && |nonNull| <= i
      invariant wins == CountOf(rows[..i], Won(value))
      invariant total == SumOf(rows[..i], ValueOf(value))
    {
      assert rows[..i + 1] == rows[..i] + [rows[i]];
      OneMore(rows[..i], rows[i], value);
      var v := value(rows[i]);
      if v.Some? {
        nonNull := nonNull + [v.value];
        total := total + v.value;
        if v.value > 0.0 {
          wins := wins + 1;
        }
      }
    }
    assert rows[..|rows|] == rows;
    missing := |rows| - |nonNull|;
    if |nonNull| > 0 {
      winRate := Some(Quantize((wins as real) / (|nonNull| as real)));
      avgReturn := Some(Quantize(total / (|nonNull| as real)));
    } else {
      winRate, avgReturn := None, None;
    }
  }

  lemma OneMore<T>(rows: seq<T>, row: T, value: T -> Option<real>)
    ensures Samples(rows + [row], value) == Samples(rows, value) + if value(row).Some? then 1 else 0
    ensures CountOf(rows + [row], Won(value)) == CountOf(rows, Won(value)) + if Won(value)(row) then 1 else 0
    ensures SumOf(rows + [row], ValueOf(value)) == SumOf(rows, ValueOf(value)) + ValueOf(value)(row)
  {
    CountOfAppend(rows, [row], Known(value));
    CountOfAppend(rows, [row], Won(value));
    SumOfAppend(rows, [row], ValueOf(value));
    assert [row][1..] == [];
  }

  /** The metrics do not depend on the sequence of the rows. */
  lemma MetricsPermute<T>(rows: seq<T>, again: seq<T>, value: T -> Option<real>)
    requires multiset(rows) == multiset(again)
    ensures WinRate(rows, value) == WinRate(again, value) && AvgReturn(rows, value) == AvgReturn(again, value)
    ensures Samples(rows, value) == Samples(again, value)
  {
    CountPermutation(rows, again, Known(value));
    CountPermutation(rows, again, Won(value));
    SumOfPermutation(rows, again, ValueOf(value));
  }

  /** The reported average times its samples. */
  function Weighted(samples: nat, average: Option<real>): real {
    (samples as real) * OrZero(average)
  }

  /** Undoing the division of a quantized average costs at most half a grid step per sample. */
  lemma AverageNearTotal<T>(rows: seq<T>, value: T -> Option<real>)
    ensures var n := Samples(rows, value);
            -0.00005 * (n as real)
            <= Weighted(n, AvgReturn(rows, value)) - SumOf(rows, ValueOf(value))
            <= 0.00005 * (n as real)
  {
    var n := Samples(rows, value);
    if n == 0 {
      NoSamplesNoTotal(rows, value);
    } else {
      var total := SumOf(rows, ValueOf(value));
      var average := Ratio(total, n);
      QuantizeNear(average);
      ScaleBack(Quantize(average), total, n as real);
    }
  }

  lemma ScaleBack(q: real, total: real, n: real)
    requires n > 0.0 && -0.00005 <= q - total / n <= 0.00005
    ensures -0.00005 * n <= n * q - total <= 0.00005 * n
  {
    var average := total / n;
    assert average * n == total;
    var d := q - average;
    ProductNonNegative(d + 0.00005, n);
    ProductNonNegative(0.00005 - d, n);
    assert d * n == n * q - total;
  }

  lemma ProductNonNegative(x: real, n: real)
    requires x >= 0.0 && n >= 0.0
    ensures x * n >= 0.0
  {
  }

  lemma {:induction false} NoSamplesNoTotal<T>(rows: seq<T>, value: T -> Option<real>)
    requires Samples(rows, value) == 0
    ensures SumOf(rows, ValueOf(value)) == 0.0
  {
    if rows != [] { NoSamplesNoTotal(rows[1..], value); }
  }

  /** Rows whose adjusted value is the raw one less a constant. */
  ghost predicate ShiftedBy<T>(rows: seq<T>, value: T -> Option<real>, adjusted: T -> Option<real>, cost: real) {
    forall i :: 0 <= i < |rows| ==>
      if value(rows[i]).Some? then adjusted(rows[i]) == Some(value(rows[i]).value - cost) else adjusted(rows[i]).None?
  }

  lemma {:induction false} ShiftedTotals<T>(rows: seq<T>, value: T -> Option<real>, adjusted: T -> Option<real>,
                                            cost: real)
    requires ShiftedBy(rows, value, adjusted, cost)
    ensures Samples(rows, adjusted) == Samples(rows, value)
    ensures SumOf(rows, ValueOf(adjusted)) == SumOf(rows, ValueOf(value)) - (Samples(rows, value) as real) * cost
  {
    if rows != [] {
      var rest := rows[1..];
      assert ShiftedBy(rest, value, adjusted, cost) by {
        assert forall i :: 0 <= i < |rest| ==> rest[i] == rows[i + 1];
      }
      ShiftedTotals(rest, value, adjusted, cost);
      assert ((Samples(rest, value) + 1) as real) * cost == (Samples(rest, value) as real) * cost + cost;
    }
  }

  lemma RatioShifts(total: real, n: nat, cost: real)
    requires n > 0
    ensures Ratio(total - (n as real) * cost, n) == Ratio(total, n) - cost
  {
    var k := n as real;
    var average := total / k;
    assert average * k == total;
    assert (average - cost) * k == total - k * cost;
  }

  /** Taking 0.33 off every return takes exactly 0.3300 off the quantized average: 3300 grid steps
      are even, so no half-even tie breaks differently. */
  lemma CostShiftsQuantizedAverage<T>(rows: seq<T>, value: T -> Option<real>, adjusted: T -> Option<real>)
    requires ShiftedBy(rows, value, adjusted, 0.33)
    ensures AvgReturn(rows, adjusted).Some? <==> AvgReturn(rows, value).Some?
    ensures AvgReturn(rows, value).Some? ==> AvgReturn(rows, adjusted).value == AvgReturn(rows, value).value - 0.33
  {
    ShiftedTotals(rows, value, adjusted, 0.33);
    var n := Samples(rows, value);
    if n > 0 {
      var average := Ratio(SumOf(rows, ValueOf(value)), n);
      RatioShifts(SumOf(rows, ValueOf(value)), n, 0.33);
      HalfEvenShift(average * 10000.0, -3300);
      assert (average - 0.33) * 10000.0 == average * 10000.0 + (-3300) as real;
    }
  }

  /** Rows of two kinds with the same values have the same samples, wins and metrics. */
  lemma {:induction false} SameValuesSameMetrics<S, T>(xs: seq<S>, f: S -> Option<real>,
                                                       ys: seq<T>, g: T -> Option<real>)
    requires MapSeq(xs, f) == MapSeq(ys, g)
    ensures Samples(xs, f) == Samples(ys, g) && SumOf(xs, ValueOf(f)) == SumOf(ys, ValueOf(g))
    ensures CountOf(xs, Won(f)) == CountOf(ys, Won(g))
    ensures AvgReturn(xs, f) == AvgReturn(ys, g) && WinRate(xs, f) == WinRate(ys, g)
  {
    assert |xs| == |ys|;
    if xs != [] {
      assert f(xs[0]) == MapSeq(xs, f)[0] == MapSeq(ys, g)[0] == g(ys[0]);
      assert MapSeq(xs[1..], f) == MapSeq(xs, f)[1..] && MapSeq(ys[1..], g) == MapSeq(ys, g)[1..];
      SameValuesSameMetrics(xs[1..], f, ys[1..], g);
    }
  }

  /** The reported win rate and average are the quantized share of known returns above zero and the
      quantized mean of the known returns; both are absent exactly when no return is known. */
  lemma MetricsExactly<T>(rows: seq<T>, value: T -> Option<real>)
    ensures WinRate(rows, value).None? <==> forall i :: 0 <= i < |rows| ==> value(rows[i]).None?
    ensures AvgReturn(rows, value).None? <==> WinRate(rows, value).None?
    ensures WinRate(rows, value).Some? ==>
              && IsQuantized(WinRate(rows, value).value,
                 CountOf(rows, Won(value)) as real / Samples(rows, value) as real)
              && IsQuantized(AvgReturn(rows, value).value, SumOf(rows, ValueOf(value)) / Samples(rows, value) as real)
  {
    hide Quantize, CountOf, SumOf, IsQuantized;
    NoneKnown(rows, value);
    var n := Samples(rows, value);
    if n > 0 {
      QuantizeExactly(CountOf(rows, Won(value)) as real / n as real);
      QuantizeExactly(SumOf(rows, ValueOf(value)) / n as real);
    }
  }

  lemma {:induction false} NoneKnown<T>(rows: seq<T>, value: T -> Option<real>)
    ensures Samples(rows, value) == 0 <==> forall i :: 0 <= i < |rows| ==> value(rows[i]).None?
  {
    if rows != [] {
      NoneKnown(rows[1..], value);
      assert forall i :: 0 <= i < |rows[1..]| ==> rows[1..][i] == rows[i + 1];
    }
  }
}
