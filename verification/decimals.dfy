/** `DecimalExtenders`: range tests, membership, sign, absolute value and the
    integral-part and rounding family of `System.Decimal`.

    A `decimal` is modelled as an exact `real`; the 96-bit mantissa and the
    28-digit scale limit are not modelled. */
module Decimals {
  import opened Wrappers
  import opened Exceptions
  import Arrays

  /** `Decimal.CompareTo`: -1, 0 or 1. */
  function CompareTo(a: real, b: real): (r: int)
    ensures r in {-1, 0, 1}
    ensures r == -1 <==> a < b
    ensures r == 1 <==> a > b
  {
    if a < b then -1 else if a == b then 0 else 1
  }

  /** `Between`: strictly between the bounds, both ends excluded. */
  predicate Between(x: real, minValue: real, maxValue: real)
    ensures Between(x, minValue, maxValue) <==> minValue < x < maxValue
  {
    CompareTo(minValue, x) == -1 && CompareTo(x, maxValue) == -1
  }

  /** `InRange`: between the bounds, both ends included; the bounds are not
      swapped. */
  predicate InRange(x: real, minValue: real, maxValue: real)
    ensures InRange(x, minValue, maxValue) <==> minValue <= x <= maxValue
  {
    CompareTo(x, minValue) >= 0 && CompareTo(x, maxValue) <= 0
  }

  /** The exclusive test is the stricter one, an end point passes only the
      inclusive one, and reversed bounds admit nothing. */
  lemma BetweenVersusInRange(x: real, minValue: real, maxValue: real)
    ensures Between(x, minValue, maxValue) ==> InRange(x, minValue, maxValue)
    ensures !Between(minValue, minValue, maxValue) && !Between(maxValue, minValue, maxValue)
    ensures minValue <= maxValue ==> InRange(minValue, minValue, maxValue) && InRange(maxValue, minValue, maxValue)
    ensures minValue > maxValue ==> !InRange(x, minValue, maxValue)
  {
  }

  /** `In`: `x` equals one of `values`. */
  predicate In(x: real, values: seq<real>)
    ensures In(x, values) <==> x in values
  {
    Arrays.IndexOf(values, x) != -1
  }

  /** `NotIn`: `x` equals none of `values`. */
  predicate NotIn(x: real, values: seq<real>)
    ensures NotIn(x, values) <==> !In(x, values)
  {
    Arrays.IndexOf(values, x) == -1
  }

  /** `Math.Abs`. */
  function Abs(x: real): (r: real)
    ensures r >= 0.0
    ensures r == x || r == -x
  {
    if x < 0.0 then -x else x
  }

  /** `Abs` over a sequence: element by element, same length, same order. */
  function AbsAll(values: seq<real>): (r: seq<real>)
    ensures |r| == |values|
    ensures forall i :: 0 <= i < |values| ==> r[i] == Abs(values[i])
  {
    if |values| == 0 then [] else [Abs(values[0])] + AbsAll(values[1..])
  }

  /** `Math.Sign`. */
  function Sign(x: real): (r: int)
    ensures r == -1 <==> x < 0.0
    ensures r == 0 <==> x == 0.0
    ensures r == 1 <==> x > 0.0
  {
    CompareTo(x, 0.0)
  }

  /** The sign and the absolute value rebuild the number. */
  lemma SignTimesAbs(x: real)
    ensures Sign(x) as real * Abs(x) == x
  {
  }

  /** `Math.Max`. */
  function Max(a: real, b: real): (r: real)
    ensures r >= a && r >= b
    ensures r == a || r == b
  {
    if a >= b then a else b
  }

  /** `Math.Min`. */
  function Min(a: real, b: real): (r: real)
    ensures r <= a && r <= b
    ensures r == a || r == b
  {
    if a <= b then a else b
  }

  /** The value has no fractional part. */
  predicate IsIntegral(x: real) {
    x == x.Floor as real
  }

  /** `Math.Floor`: the largest integral value not above `d`. */
  function Floor(d: real): (r: real)
    ensures IsIntegral(r)
    ensures r <= d < r + 1.0
  {
    d.Floor as real
  }

  /** `Math.Ceiling`: the smallest integral value not below `d`. */
  function Ceiling(d: real): (r: real)
    ensures IsIntegral(r)
    ensures r - 1.0 < d <= r
  {
    var f := (-d).Floor;
    (-f) as real
  }

  /** `Math.Truncate`: the integral part, the fraction discarded toward zero. */
  function Truncate(d: real): (r: real)
    ensures IsIntegral(r)
    ensures Abs(r) <= Abs(d) < Abs(r) + 1.0
    ensures r == 0.0 || (r > 0.0 <==> d > 0.0)
  {
    if d >= 0.0 then Floor(d) else Ceiling(d)
  }

  /** An integral value is its own floor, ceiling and integral part. */
  lemma IntegralPartsOfIntegral(d: real)
    requires IsIntegral(d)
    ensures Floor(d) == d && Ceiling(d) == d && Truncate(d) == d
  {
    var k := d.Floor;
    assert d == k as real;
    assert (-d).Floor == -k by {
      assert -d == (-k) as real;
    }
  }

  /** `MidpointRounding`: what a value exactly halfway between two integers
      rounds to. */
  datatype MidpointRounding = ToEven | AwayFromZero

  /** Rounding to the nearest integer; at a tie the mode decides. */
  function RoundToInt(d: real, mode: MidpointRounding): (r: int)
    ensures d - 0.5 <= r as real <= d + 0.5
    ensures IsIntegral(d) ==> r as real == d
    ensures (r as real - d == 0.5 || d - r as real == 0.5) ==>
      match mode
      case ToEven => r % 2 == 0
      case AwayFromZero => Abs(r as real) > Abs(d)
  {
    var f := d.Floor;
    var fraction := d - f as real;
    if fraction < 0.5 then f
    else if fraction > 0.5 then f + 1
    else
      match mode
      case ToEven => if f % 2 == 0 then f else f + 1
      case AwayFromZero => if d >= 0.0 then f + 1 else f
  }

  /** No other integer is closer: the result is the nearest one. */
  lemma RoundToIntIsNearest(d: real, mode: MidpointRounding, k: int)
    ensures Abs(RoundToInt(d, mode) as real - d) <= Abs(k as real - d)
  {
    var r := RoundToInt(d, mode);
    if k < r {
      assert k as real <= r as real - 1.0;
    } else if k > r {
      assert k as real >= r as real + 1.0;
    }
  }

  /** `10^n`. */
  function Pow10(n: nat): (r: real)
    ensures r >= 1.0
  {
    if n == 0 then 1.0 else 10.0 * Pow10(n - 1)
  }

  /** The factor that shifts `n` fractional digits left of the point,
      `10^n`; a layer of its own, so that facts about one scale do not
      unfold the power. */
  function Scale(n: nat): (r: real)
    ensures r >= 1.0
  {
    Pow10(n)
  }

  /** `d` with its decimal point moved `k` digits to the right. */
  function Shift(d: real, k: nat): real {
    d * Scale(k)
  }

  /** Moving the point back undoes the shift. */
  lemma ShiftBack(d: real, k: nat)
    ensures Shift(d, k) / Scale(k) == d
  {
    MulDivCancel(d, Scale(k));
  }

  /** `d` has at most `decimals` fractional digits. */
  predicate HasAtMostDigits(d: real, decimals: nat) {
    IsIntegral(Shift(d, decimals))
  }

  /** The most fractional digits a `decimal` can carry. */
  const MaxScale: nat := 28

  /** `Math.Round(d, decimals, mode)`: rounding to `decimals` fractional
      digits; a digit count outside 0..28 is rejected. */
  function RoundDigits(d: real, decimals: int, mode: MidpointRounding): (r: Result<real, Exception>)
    ensures r.Failure? <==> !(0 <= decimals <= MaxScale)
    ensures r.Failure? ==> r.error == ArgumentOutOfRangeException("decimals")
    ensures r.Success? ==> HasAtMostDigits(r.value, decimals)
    ensures r.Success? ==> Abs(r.value - d) <= 0.5 / Scale(decimals)
    ensures r.Success? && HasAtMostDigits(d, decimals) ==> r.value == d
    ensures r.Success? && Abs(r.value - d) == 0.5 / Scale(decimals) ==>
      match mode
      case ToEven => Shift(r.value, decimals).Floor % 2 == 0
      case AwayFromZero => Abs(r.value) > Abs(d)
  {
    if decimals < 0 || decimals > MaxScale then Failure(ArgumentOutOfRangeException("decimals"))
    else
      RoundedHasDigits(d, decimals, mode);
      RoundedError(d, decimals, mode);
      ExactWhenFewDigits(d, decimals, mode);
      RoundedTie(d, decimals, mode);
      Success(RoundToInt(Shift(d, decimals), mode) as real / Scale(decimals))
  }

  /** Rounding the shifted value and shifting back leaves at most `k`
      digits. */
  lemma RoundedHasDigits(d: real, k: nat, mode: MidpointRounding)
    ensures HasAtMostDigits(RoundToInt(Shift(d, k), mode) as real / Scale(k), k)
  {
    DigitsOfScaled(RoundToInt(Shift(d, k), mode), k);
  }

  /** Rounding the shifted value and shifting back errs by at most half a
      unit of the last kept digit. */
  lemma RoundedError(d: real, k: nat, mode: MidpointRounding)
    ensures Abs(RoundToInt(Shift(d, k), mode) as real / Scale(k) - d) <= 0.5 / Scale(k)
  {
    RoundedErrorAt(d, Scale(k), Shift(d, k), mode);
  }

  /** The same at any scale `s`, for `x` the value `d` scaled by `s`. */
  lemma RoundedErrorAt(d: real, s: real, x: real, mode: MidpointRounding)
    requires s >= 1.0 && x == d * s
    ensures Abs(RoundToInt(x, mode) as real / s - d) <= 0.5 / s
  {
    var n := RoundToInt(x, mode) as real;
    WithinHalf(n, x);
    ScaledError(d, s, n);
  }

  /** At a tie in the last kept digit, the mode decides: the kept last
      digit is even (ToEven), or the result is the neighbour farther from
      zero (AwayFromZero). */
  lemma RoundedTie(d: real, k: nat, mode: MidpointRounding)
    ensures
      var v := RoundToInt(Shift(d, k), mode) as real / Scale(k);
      Abs(v - d) == 0.5 / Scale(k) ==>
        match mode
        case ToEven => Shift(v, k).Floor % 2 == 0
        case AwayFromZero => Abs(v) > Abs(d)
  {
    match mode
    case ToEven => RoundedTieEven(d, k);
    case AwayFromZero => RoundedTieAway(d, k);
  }

  lemma RoundedTieEven(d: real, k: nat)
    ensures
      var v := RoundToInt(Shift(d, k), ToEven) as real / Scale(k);
      Abs(v - d) == 0.5 / Scale(k) ==> Shift(v, k).Floor % 2 == 0
  {
    var s := Scale(k);
    var n := RoundToInt(Shift(d, k), ToEven);
    ShiftOfScaled(n, k);
    TieEvenAt(d, s, Shift(d, k));
  }

  /** Shifting an integer divided by `10^k` by `k` digits gives it back. */
  lemma ShiftOfScaled(n: int, k: nat)
    ensures Shift(n as real / Scale(k), k) == n as real
  {
    DivMulCancel(n as real, Scale(k));
  }

  lemma RoundedTieAway(d: real, k: nat)
    ensures
      var v := RoundToInt(Shift(d, k), AwayFromZero) as real / Scale(k);
      Abs(v - d) == 0.5 / Scale(k) ==> Abs(v) > Abs(d)
  {
    TieAwayAt(d, Scale(k), Shift(d, k));
  }

  /** A tie at scale `s` rounded to even keeps an even last digit. */
  lemma TieEvenAt(d: real, s: real, x: real)
    requires s >= 1.0 && x == d * s
    ensures (RoundToInt(x, ToEven) as real / s) * s == RoundToInt(x, ToEven) as real
    ensures Abs(RoundToInt(x, ToEven) as real / s - d) == 0.5 / s ==> RoundToInt(x, ToEven) % 2 == 0
  {
    var n := RoundToInt(x, ToEven);
    DivMulCancel(n as real, s);
    if Abs(n as real / s - d) == 0.5 / s {
      TieAtScale(d, s, x, n as real);
    }
  }

  /** A tie at scale `s` rounded away from zero grows in magnitude. */
  lemma TieAwayAt(d: real, s: real, x: real)
    requires s >= 1.0 && x == d * s
    ensures
      var n := RoundToInt(x, AwayFromZero) as real;
      Abs(n / s - d) == 0.5 / s ==> Abs(n / s) > Abs(d)
  {
    var n := RoundToInt(x, AwayFromZero) as real;
    if Abs(n / s - d) == 0.5 / s {
      TieAtScale(d, s, x, n);
      AbsOfScaled(n, s);
      AbsOfScaled(x, s);
      MulDivCancel(d, s);
      DivStrictMonotone(Abs(x), Abs(n), s);
    }
  }

  /** A result exactly half a unit of the last digit away is, before
      scaling back, exactly halfway from the scaled value. */
  lemma TieAtScale(d: real, s: real, x: real, n: real)
    requires s >= 1.0 && x == d * s
    requires Abs(n / s - d) == 0.5 / s
    ensures n - x == 0.5 || x - n == 0.5
  {
    assert n / s - d == (n - x) / s;
    AbsOfScaled(n - x, s);
    DivInjective(Abs(n - x), 0.5, s);
  }

  lemma AbsOfScaled(a: real, s: real)
    requires s >= 1.0
    ensures Abs(a / s) == Abs(a) / s
  {
    if a < 0.0 {
      assert -(a / s) == (-a) / s;
    }
  }

  lemma DivInjective(a: real, b: real, s: real)
    requires s >= 1.0 && a / s == b / s
    ensures a == b
  {
    DivMulCancel(a, s);
    DivMulCancel(b, s);
  }

  lemma DivStrictMonotone(a: real, b: real, s: real)
    requires a < b && s >= 1.0
    ensures a / s < b / s
  {
    assert b / s - a / s == (b - a) / s;
  }

  /** A number at most 0.5 away on either side is within 0.5. */
  lemma WithinHalf(n: real, x: real)
    requires x - 0.5 <= n <= x + 0.5
    ensures Abs(n - x) <= 0.5
  {
  }

  /** A value that already fits the digit count survives scaling, rounding
      and unscaling unchanged. */
  lemma ExactWhenFewDigits(d: real, k: nat, mode: MidpointRounding)
    ensures HasAtMostDigits(d, k) ==>
      RoundToInt(Shift(d, k), mode) as real / Scale(k) == d
  {
    if HasAtMostDigits(d, k) {
      ShiftBack(d, k);
    }
  }

  /** An integer divided by `10^k` has at most `k` fractional digits. */
  lemma DigitsOfScaled(n: int, k: nat)
    ensures HasAtMostDigits(n as real / Scale(k), k)
  {
    DivMulCancel(n as real, Scale(k));
    assert Shift(n as real / Scale(k), k) == n as real;
  }

  /** Dividing by the scale shrinks the rounding error by the same factor. */
  lemma ScaledError(d: real, s: real, n: real)
    requires s >= 1.0
    requires Abs(n - d * s) <= 0.5
    ensures Abs(n / s - d) <= 0.5 / s
  {
    var e := n - d * s;
    assert n / s - d == e / s;
    if e >= 0.0 {
      DivMonotone(e, 0.5, s);
    } else {
      assert -(e / s) == (-e) / s;
      DivMonotone(-e, 0.5, s);
    }
  }

  lemma DivMulCancel(n: real, s: real)
    requires s >= 1.0
    ensures (n / s) * s == n
  {
  }

  lemma MulDivCancel(d: real, s: real)
    requires s >= 1.0
    ensures (d * s) / s == d
  {
  }

  lemma DivMonotone(a: real, b: real, s: real)
    requires a <= b && s > 0.0
    ensures a / s <= b / s
  {
    assert b / s - a / s == (b - a) / s;
  }

  /** `Math.Round(d)`: to the nearest integer, ties to even. */
  function Round(d: real): (r: real)
    ensures IsIntegral(r)
    ensures Abs(r - d) <= 0.5
    ensures Abs(r - d) == 0.5 ==> r.Floor % 2 == 0
  {
    RoundToInt(d, ToEven) as real
  }

  /** `Math.Round(d, mode)`: to the nearest integer, ties as `mode` says. */
  function RoundMode(d: real, mode: MidpointRounding): (r: real)
    ensures RoundDigits(d, 0, mode) == Success(r)
  {
    RoundToInt(d, mode) as real
  }

  /** `Math.Round(d, decimals)`: ties to even. */
  function RoundTo(d: real, decimals: int): (r: Result<real, Exception>)
    ensures r == RoundDigits(d, decimals, ToEven)
  {
    RoundDigits(d, decimals, ToEven)
  }

  /** `RoundDecimalPoints(val, decimalPoints)`. */
  function RoundDecimalPoints(val: real, decimalPoints: int): (r: Result<real, Exception>)
    ensures r == RoundDigits(val, decimalPoints, ToEven)
  {
    RoundTo(val, decimalPoints)
  }

  /** `RoundToTwoDecimalPoints(val)`: never fails, result has two digits. */
  function RoundToTwoDecimalPoints(val: real): (r: real)
    ensures RoundTo(val, 2) == Success(r)
    ensures HasAtMostDigits(r, 2) && Abs(r - val) <= 0.005
  {
    RoundTo(val, 2).value
  }

  /** `ToMoney`: the same two-digit banker's rounding. */
  function ToMoney(val: real): (r: real)
    ensures r == RoundToTwoDecimalPoints(val)
    ensures HasAtMostDigits(r, 2)
  {
    RoundTo(val, 2).value
  }

  /** Rounding is idempotent: a rounded value rounds to itself. */
  lemma RoundDigitsIdempotent(d: real, decimals: int, mode: MidpointRounding)
    requires 0 <= decimals <= MaxScale
    ensures RoundDigits(RoundDigits(d, decimals, mode).value, decimals, mode) == RoundDigits(d, decimals, mode)
  {
  }

  lemma RoundExamples()
    ensures Round(2.5) == 2.0 && Round(3.5) == 4.0 && Round(-2.5) == -2.0
    ensures RoundMode(2.5, AwayFromZero) == 3.0 && RoundMode(-2.5, AwayFromZero) == -3.0
    ensures ToMoney(1.005) == 1.0 && ToMoney(1.015) == 1.02
    ensures RoundDigits(0.125, 2, ToEven) == Success(0.12) && RoundDigits(0.125, 2, AwayFromZero) == Success(0.13)
    ensures RoundTo(1.5, -1).Failure? && RoundTo(1.5, 29).Failure?
  {
  }
}
