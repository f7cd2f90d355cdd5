/** Rounding of exact decimals to a grid: half-even (quantize without a mode) and half-up. */
module Decimals {

  function RoundHalfEven(x: real): int {
    var f := x.Floor;
    var rest := x - f as real;
    if rest < 0.5 then f
    else if rest > 0.5 then f + 1
    else if f % 2 == 0 then f else f + 1
  }

  function RoundHalfUp(x: real): int {
    if x >= 0.0 then (x + 0.5).Floor else -((-x + 0.5).Floor)
  }

  /** x.quantize(0.0001) */
  function Quantize(x: real): real {
    RoundHalfEven(x * 10000.0) as real / 10000.0
  }

  /** Half-up rounding to 0.01. */
  function RoundCents(x: real): real {
    RoundHalfUp(x * 100.0) as real / 100.0
  }

  /** Half-up rounding to 0.0001. */
  function RoundBasis(x: real): real {
    RoundHalfUp(x * 10000.0) as real / 10000.0
  }

  function Clip(x: real, lower: real, upper: real): real {
    var capped := if upper < x then upper else x;
    if lower > capped then lower else capped
  }

  /** Rounding half to even moves a value by at most half a grid step. */
  lemma QuantizeNear(x: real)
    ensures -0.00005 <= Quantize(x) - x <= 0.00005
  {
    var y := x * 10000.0;
    var r := RoundHalfEven(y) as real;
    assert -0.5 <= r - y <= 0.5;
  }

  lemma HalfEvenShift(x: real, k: int)
    requires k % 2 == 0
    ensures RoundHalfEven(x + k as real) == RoundHalfEven(x) + k
  {
    assert (x + k as real).Floor == x.Floor + k;
  }

  /** Half-even rounding commutes with a shift by k grid steps exactly when k is even. */
  lemma HalfEvenCommutesExactlyWithEvenShifts(k: int)
    ensures (forall x: real :: RoundHalfEven(x + k as real) == RoundHalfEven(x) + k) <==> k % 2 == 0
  {
    if k % 2 == 0 {
      forall x: real ensures RoundHalfEven(x + k as real) == RoundHalfEven(x) + k {
        HalfEvenShift(x, k);
      }
    } else {
      assert (0.5).Floor == 0 && (0.5 + k as real).Floor == k;
      assert RoundHalfEven(0.5) == 0 && RoundHalfEven(0.5 + k as real) == k + 1;
    }
  }

  /** Half-up rounding never leaves an interval with grid ends. */
  lemma HalfUpBetween(x: real, lo: int, hi: int)
    requires lo as real <= x <= hi as real
    ensures lo <= RoundHalfUp(x) <= hi
  {
    if x >= 0.0 {
      assert (x + 0.5).Floor as real <= x + 0.5 < (x + 0.5).Floor as real + 1.0;
    } else {
      assert (-x + 0.5).Floor as real <= -x + 0.5 < (-x + 0.5).Floor as real + 1.0;
    }
  }

  lemma RoundCentsBetween(x: real, lo: int, hi: int)
    requires lo as real <= x <= hi as real
    ensures lo as real <= RoundCents(x) <= hi as real
  {
    HalfUpBetween(x * 100.0, lo * 100, hi * 100);
  }

  lemma RoundBasisBetween(x: real, lo: int, hi: int)
    requires lo as real <= x <= hi as real
    ensures lo as real <= RoundBasis(x) <= hi as real
  {
    HalfUpBetween(x * 10000.0, lo * 10000, hi * 10000);
  }

  /** Half a step goes to the even neighbour in one rounding and away from zero in the other; and both
      take the nearest whole number otherwise. */
  lemma TiesExactly(k: int)
    ensures RoundHalfEven(k as real + 0.5) == if k % 2 == 0 then k else k + 1
    ensures RoundHalfUp(k as real + 0.5) == if k >= 0 then k + 1 else k
  {
    assert (k as real + 0.5).Floor == k;
    if k >= 0 {
      assert (k as real + 0.5 + 0.5).Floor == k + 1;
    } else {
      assert (-(k as real + 0.5) + 0.5).Floor == -k;
    }
  }

  lemma HalfUpNear(x: real)
    ensures -0.5 <= RoundHalfUp(x) as real - x <= 0.5
  {
    if x >= 0.0 {
      assert (x + 0.5).Floor as real <= x + 0.5 < (x + 0.5).Floor as real + 1.0;
    } else {
      assert (-x + 0.5).Floor as real <= -x + 0.5 < (-x + 0.5).Floor as real + 1.0;
    }
  }

  lemma RoundCentsNear(x: real)
    ensures -0.005 <= RoundCents(x) - x <= 0.005
  {
    HalfUpNear(x * 100.0);
  }

  lemma RoundBasisNear(x: real)
    ensures -0.00005 <= RoundBasis(x) - x <= 0.00005
  {
    HalfUpNear(x * 10000.0);
  }

  /** The multiple of a ten-thousandth nearest to x, the even one of two that are equally near. */
  ghost predicate IsQuantized(q: real, x: real) {
    var k := (q * 10000.0).Floor;
    var off := k as real - x * 10000.0;
    && q * 10000.0 == k as real
    && -0.5 <= off <= 0.5
    && (off == 0.5 || off == -0.5 ==> k % 2 == 0)
  }

  lemma QuantizeExactly(x: real)
    ensures IsQuantized(Quantize(x), x)
  {
    var k := RoundHalfEven(x * 10000.0);
    assert Quantize(x) * 10000.0 == k as real && (k as real).Floor == k;
  }

  /** A multiple of one hundredth, or of one ten-thousandth. */
  ghost predicate OnGrid(x: real, steps: real) {
    x * steps == (x * steps).Floor as real
  }

  lemma RoundedOnGrid(x: real)
    ensures OnGrid(RoundCents(x), 100.0) && OnGrid(RoundBasis(x), 10000.0)
  {
    var c, b := RoundHalfUp(x * 100.0), RoundHalfUp(x * 10000.0);
    assert RoundCents(x) * 100.0 == c as real && (c as real).Floor == c;
    assert RoundBasis(x) * 10000.0 == b as real && (b as real).Floor == b;
  }
}
