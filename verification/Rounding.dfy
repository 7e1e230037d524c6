/** Rounding of money in the backtest kernel.

    `Decimals12` is the source's `round(value, 12)` on real numbers: the nearest
    multiple of 10^-12, ties to the even multiple.  `Exact` keeps every digit. */
module Rounding {

  datatype Precision = Exact | Decimals12

  const SCALE := 1000000000000.0
  const HALF_UNIT := 0.5 / SCALE

  function HalfEven(y: real): int {
    var floor := y.Floor;
    var rest := y - floor as real;
    if rest < 0.5 then floor
    else if rest > 0.5 then floor + 1
    else if floor % 2 == 0 then floor else floor + 1
  }

  function Round(p: Precision, x: real): real {
    match p
    case Exact => x
    case Decimals12 => HalfEven(x * SCALE) as real / SCALE
  }

  /** A value rounding leaves alone. */
  ghost predicate IsRounded(p: Precision, x: real) {
    Round(p, x) == x
  }

  lemma RoundIsNear(p: Precision, x: real)
    ensures -HALF_UNIT <= Round(p, x) - x <= HALF_UNIT
  {
  }

  lemma RoundIsIdempotent(p: Precision, x: real)
    ensures IsRounded(p, Round(p, x))
  {
  }

  lemma RoundIsMonotone(p: Precision, x: real, y: real)
    requires x <= y
    ensures Round(p, x) <= Round(p, y)
  {
    if p == Decimals12 {
      var a, b := x * SCALE, y * SCALE;
      assert a <= b;
      assert a.Floor <= b.Floor;
    }
  }

  lemma RoundOfZero(p: Precision)
    ensures Round(p, 0.0) == 0.0
  {
  }

  /** A non-negative value rounds to nothing exactly when it is at most half a unit. */
  lemma RoundsToZero(x: real)
    requires x >= 0.0
    ensures Round(Decimals12, x) >= 0.0
    ensures Round(Decimals12, x) == 0.0 <==> x <= HALF_UNIT
  {
  }

  /** The rounded integer is the nearest one, and the even one of two that are equally near. */
  lemma HalfEvenIff(y: real, n: int)
    ensures HalfEven(y) == n <==>
            && -0.5 <= y - n as real <= 0.5
            && (y - n as real == 0.5 || y - n as real == -0.5 ==> n % 2 == 0)
  {
    var rest := y - y.Floor as real;
    assert 0.0 <= rest < 1.0;
    if -0.5 <= y - n as real <= 0.5 {
      assert n == y.Floor || n == y.Floor + 1;
    }
  }

  /** Twelve decimals: the nearest multiple of 10^-12, the even one of two. */
  lemma RoundIff(x: real, n: int)
    ensures Round(Decimals12, x) == n as real / 1000000000000.0 <==>
            var error := x * 1000000000000.0 - n as real;
            -0.5 <= error <= 0.5 && (error == 0.5 || error == -0.5 ==> n % 2 == 0)
  {
    HalfEvenIff(x * SCALE, n);
  }
}
