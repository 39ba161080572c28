/**
 * The body-mass-index rule shared by the intake form's effect and the
 * stand-alone BMI calculator: weight in kilograms over the square of the
 * height in metres, rounded to one decimal place with `Math.round`.
 * Arithmetic is over the reals, not IEEE-754 doubles.
 */
module Bmi {
  import opened Js
  import opened Wrappers

  /** The unrounded index: height is converted from centimetres to metres by dividing by 100. */
  function RawBmi(weightKg: real, heightCm: real): (bmi: real)
    requires heightCm != 0.0
    ensures bmi * ((heightCm / 100.0) * (heightCm / 100.0)) == weightKg
  {
    var heightM := heightCm / 100.0;
    SquarePositive(heightM);
    weightKg / (heightM * heightM)
  }

  lemma SquarePositive(a: real)
    requires a != 0.0
    ensures a * a > 0.0
  {
    if a > 0.0 {
      assert a * a > 0.0 * a;
    } else {
      assert (-a) * (-a) > 0.0 * a;
    }
  }

  /** `Math.round(x * 10) / 10`: x rounded to a whole number of tenths, at most half a tenth away. */
  function RoundToTenth(x: real): (r: real)
    ensures IsInteger(r * 10.0)
    ensures x - 0.05 < r <= x + 0.05
  {
    Round(x * 10.0) as real / 10.0
  }

  /** No whole number of tenths is nearer to x than the rounded value. */
  lemma RoundToTenthIsNearest(x: real, tenths: int)
    ensures Abs(x - RoundToTenth(x)) <= Abs(x - tenths as real / 10.0)
  {
    RoundIsNearest(x * 10.0, tenths);
    assert Abs(x * 10.0 - Round(x * 10.0) as real) == 10.0 * Abs(x - RoundToTenth(x));
    assert Abs(x * 10.0 - tenths as real) == 10.0 * Abs(x - tenths as real / 10.0);
  }

  /**
   * The derivation both components run when weight or height changes: a
   * value only when both inputs are truthy (so neither is 0, NaN or
   * undefined); negative inputs are truthy and do produce a value.
   */
  function DeriveBmi(weight: Value, height: Value): (bmi: Option<real>)
    ensures bmi.Some? <==> Truthy(weight) && Truthy(height)
    ensures bmi.Some? ==> IsInteger(bmi.value * 10.0)
    ensures bmi.Some? ==>
      RawBmi(weight.x, height.x) - 0.05 < bmi.value <= RawBmi(weight.x, height.x) + 0.05
  {
    if Truthy(weight) && Truthy(height) then Some(RoundToTenth(RawBmi(weight.x, height.x))) else None
  }

  /** 60 kg at 165 cm gives 22.0. */
  lemma DeriveBmiExample()
    ensures DeriveBmi(Num(60.0), Num(165.0)) == Some(22.0)
  {
    var raw := RawBmi(60.0, 165.0);
    assert raw * 2.7225 == 60.0;
    assert 220.0 <= raw * 10.0 + 0.5 < 221.0;
  }
}
