/**
 * The part of JavaScript's number semantics that the intake form and the
 * results view rely on: the values a form field or a score can hold, their
 * truthiness, the `<` comparison, `Number.isInteger` and `Math.round`.
 *
 * Numbers are modelled as mathematical reals, not IEEE-754 doubles;
 * infinities and values of other JavaScript types are not modelled.
 */
module Js {

  /** A field or score value: `undefined`, `NaN`, or a finite number. */
  datatype Value = Undefined | NaN | Num(x: real)

  /** JavaScript truthiness of a number-or-undefined value: false exactly for undefined, NaN and 0. */
  predicate Truthy(v: Value)
    ensures !Truthy(v) <==> v == Undefined || v == NaN || v == Num(0.0)
  {
    v.Num? && v.x != 0.0
  }

  /** `v < bound`: undefined and NaN compare false against every number. */
  predicate Less(v: Value, bound: real)
    ensures !v.Num? ==> !Less(v, bound)
    ensures v.Num? ==> (Less(v, bound) <==> !(bound <= v.x))
  {
    v.Num? && v.x < bound
  }

  /** `Number(v)` for the values above: undefined becomes NaN, numbers stay. */
  function ToNumber(v: Value): (r: Value)
    ensures !r.Undefined?
    ensures v.Num? ==> r == v
    ensures !v.Num? ==> r == NaN
  {
    if v.Undefined? then NaN else v
  }

  /** `Number.isInteger(x)` for a finite x. */
  predicate IsInteger(x: real)
    ensures IsInteger(x) <==> Round(x) as real == x
  {
    RoundFixesIntegers(x);
    x == x.Floor as real
  }

  lemma RoundFixesIntegers(x: real)
    ensures x == x.Floor as real <==> (x + 0.5).Floor as real == x
  {
    var k := x.Floor;
    var m := (x + 0.5).Floor;
    assert k as real <= x < k as real + 1.0;
    assert m as real <= x + 0.5 < m as real + 1.0;
    if x == k as real {
      assert k as real <= x + 0.5 < k as real + 1.0;
      assert m == k;
    }
    if m as real == x {
      assert x.Floor == m;
    }
  }

  /**
   * `Math.round(x)`: the integer nearest to x, ties rounded toward
   * positive infinity (section 21.3.2.28 of ECMA-262).
   */
  function Round(x: real): (n: int)
    ensures x - 0.5 < n as real <= x + 0.5
  {
    (x + 0.5).Floor
  }

  function Abs(x: real): real
  {
    if x < 0.0 then -x else x
  }

  /** Math.round picks a nearest integer, and of two equally near ones the larger. */
  lemma RoundIsNearest(x: real, m: int)
    ensures Abs(x - Round(x) as real) <= Abs(x - m as real)
    ensures Abs(x - Round(x) as real) == Abs(x - m as real) ==> m <= Round(x)
  {
  }
}
