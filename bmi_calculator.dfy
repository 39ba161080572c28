/**
 * The stand-alone BMI calculator component: it keeps the last computed
 * index in its `bmi` state (initially 0) and reports each computed value to
 * its `onBMICalculated` callback, whose calls are recorded in order.
 */
module BmiCalculatorEffect {
  import opened Js
  import opened Wrappers
  import opened Bmi

  class BmiCalculator {
    var bmi: real
    /** The values passed to `onBMICalculated`, oldest first. */
    var reported: seq<real>

    /** The state holds the value last reported, or 0 if none was. */
    ghost predicate Valid()
      reads this
    {
      bmi == if reported == [] then 0.0 else reported[|reported| - 1]
    }

    constructor ()
      ensures Valid() && bmi == 0.0 && reported == []
    {
      bmi := 0.0;
      reported := [];
    }

    /**
     * One run of the effect for the current weight and height: when both
     * are truthy the rounded index is stored and reported; otherwise
     * nothing changes and the callback is not called.
     */
    method Run(weight: Value, height: Value)
      requires Valid()
      modifies this
      ensures Valid()
      ensures DeriveBmi(weight, height).Some? ==>
        bmi == DeriveBmi(weight, height).value && reported == old(reported) + [bmi]
      ensures DeriveBmi(weight, height).None? ==>
        bmi == old(bmi) && reported == old(reported)
    {
      if Truthy(weight) && Truthy(height) {
        var heightInMeters := height.x / 100.0;
        SquarePositive(heightInMeters);
        var calculated := weight.x / (heightInMeters * heightInMeters);
        assert calculated == RawBmi(weight.x, height.x);
        var rounded := Round(calculated * 10.0) as real / 10.0;
        assert rounded == RoundToTenth(calculated);
        bmi := rounded;
        reported := reported + [rounded];
      }
    }
  }
}
