/**
 * Decimal text of numbers, as the results view uses it when it turns the
 * score back into a number: `Number::toString` for finite decimals,
 * `String.prototype.replace('%', '')`, `parseFloat` and `parseInt`
 * (sections 6.1.6.1.20, 22.1.3.19, 19.2.4 and 19.2.5 of ECMA-262, restricted
 * to plain decimal notation).
 */
module NumberText {
  import opened Js

  type Digit = d: int | 0 <= d < 10

  predicate IsDigitChar(c: char)
  {
    '0' <= c <= '9'
  }

  predicate AllDigits(s: string)
  {
    forall i :: 0 <= i < |s| ==> IsDigitChar(s[i])
  }

  function DigitChar(d: Digit): (c: char)
    ensures IsDigitChar(c)
  {
    ('0' as int + d) as char
  }

  function DigitOf(c: char): (d: Digit)
    requires IsDigitChar(c)
    ensures DigitChar(d) == c
  {
    c as int - '0' as int
  }

  /** The decimal digits of n, most significant first, without leading zeros. */
  function NatToString(n: nat): (s: string)
    ensures |s| > 0 && AllDigits(s)
    ensures n > 0 ==> s[0] != '0'
  {
    if n < 10 then [DigitChar(n)] else NatToString(n / 10) + [DigitChar(n % 10)]
  }

  /** The number a string of decimal digits denotes. */
  function DigitsValue(s: string): nat
    requires AllDigits(s)
  {
    if s == [] then 0 else DigitsValue(s[..|s| - 1]) * 10 + DigitOf(s[|s| - 1])
  }

  lemma {:induction false} NatToStringRoundTrip(n: nat)
    ensures DigitsValue(NatToString(n)) == n
  {
    if n >= 10 {
      var s := NatToString(n);
      assert s[..|s| - 1] == NatToString(n / 10);
      NatToStringRoundTrip(n / 10);
    }
  }

  /** The length of the longest prefix of s made of decimal digits. */
  function LeadingDigits(s: string): (k: nat)
    ensures k <= |s| && AllDigits(s[..k])
    ensures k < |s| ==> !IsDigitChar(s[k])
  {
    if s == [] || !IsDigitChar(s[0]) then 0
    else
      var k := 1 + LeadingDigits(s[1..]);
      assert s[..k] == [s[0]] + s[1..][..k - 1];
      k
  }

  /** The value of the digits after a decimal point. */
  function FractionValue(s: string): (r: real)
    requires AllDigits(s)
    ensures 0.0 <= r < 1.0
  {
    if s == [] then 0.0 else (DigitOf(s[0]) as real + FractionValue(s[1..])) / 10.0
  }

  /** A finite number written in plain decimal notation. */
  datatype Decimal = Decimal(negative: bool, whole: nat, fraction: seq<Digit>)

  function Fraction(f: seq<Digit>): (r: real)
    ensures 0.0 <= r < 1.0
  {
    if f == [] then 0.0 else (f[0] as real + Fraction(f[1..])) / 10.0
  }

  /** The number a decimal stands for. */
  function NumberOf(d: Decimal): real
  {
    var magnitude := d.whole as real + Fraction(d.fraction);
    if d.negative then -magnitude else magnitude
  }

  function DigitsText(f: seq<Digit>): (s: string)
    ensures |s| == |f| && AllDigits(s)
  {
    if f == [] then "" else [DigitChar(f[0])] + DigitsText(f[1..])
  }

  lemma {:induction false} DigitsTextValue(f: seq<Digit>)
    ensures FractionValue(DigitsText(f)) == Fraction(f)
  {
    if f != [] {
      var s := DigitsText(f);
      assert s[1..] == DigitsText(f[1..]);
      DigitsTextValue(f[1..]);
    }
  }

  predicate DecimalChar(c: char)
  {
    IsDigitChar(c) || c == '-' || c == '.'
  }

  predicate NoTrailingZero(f: seq<Digit>)
  {
    f == [] || f[|f| - 1] != 0
  }

  /**
   * A decimal as `Number::toString` writes a number: no zero at the end of the
   * fraction, and no minus sign on zero.
   */
  predicate Canonical(d: Decimal)
  {
    NoTrailingZero(d.fraction) && (d.negative ==> d.whole != 0 || d.fraction != [])
  }

  type CanonicalDecimal = d: Decimal | Canonical(d) witness Decimal(false, 0, [])

  /** A fraction whose last digit is not zero is positive. */
  lemma {:induction false} FractionPositive(f: seq<Digit>)
    requires f != [] && NoTrailingZero(f)
    ensures Fraction(f) > 0.0
  {
    if |f| > 1 {
      assert f[1..][|f[1..]| - 1] == f[|f| - 1];
      FractionPositive(f[1..]);
    }
  }

  /** Two fractions without trailing zeros that have the same value have the same digits. */
  lemma {:induction false} FractionInjective(f: seq<Digit>, g: seq<Digit>)
    requires NoTrailingZero(f) && NoTrailingZero(g)
    requires Fraction(f) == Fraction(g)
    ensures f == g
  {
    if f == [] && g != [] {
      FractionPositive(g);
    } else if f != [] && g == [] {
      FractionPositive(f);
    } else if f != [] {
      var a, b := Fraction(f[1..]), Fraction(g[1..]);
      assert f[0] as real + a == g[0] as real + b;
      assert f[0] == g[0];
      assert |f[1..]| > 0 ==> f[1..][|f[1..]| - 1] == f[|f| - 1];
      assert |g[1..]| > 0 ==> g[1..][|g[1..]| - 1] == g[|g| - 1];
      FractionInjective(f[1..], g[1..]);
      assert f == [f[0]] + f[1..] && g == [g[0]] + g[1..];
    }
  }

  /** A canonical decimal carries a minus sign exactly when it stands for a negative number. */
  lemma CanonicalSign(d: CanonicalDecimal)
    ensures d.negative <==> NumberOf(d) < 0.0
  {
    if d.fraction != [] {
      FractionPositive(d.fraction);
    }
  }

  /** A canonical decimal is determined by its value: equal numbers have one written form. */
  lemma CanonicalUnique(a: CanonicalDecimal, b: CanonicalDecimal)
    requires NumberOf(a) == NumberOf(b)
    ensures a == b
  {
    var ma, mb := a.whole as real + Fraction(a.fraction), b.whole as real + Fraction(b.fraction);
    CanonicalSign(a);
    CanonicalSign(b);
    assert ma == mb;
    assert a.whole == b.whole;
    FractionInjective(a.fraction, b.fraction);
  }

  /** Dropping a zero from the end of a fraction keeps its value. */
  lemma {:induction false} FractionDropZero(f: seq<Digit>)
    requires f != [] && f[|f| - 1] == 0
    ensures Fraction(f[..|f| - 1]) == Fraction(f)
  {
    if |f| > 1 {
      var t := f[1..];
      assert t[|t| - 1] == 0;
      FractionDropZero(t);
      assert f[..|f| - 1][1..] == t[..|t| - 1];
    }
  }

  function DropTrailingZeros(f: seq<Digit>): (g: seq<Digit>)
    ensures NoTrailingZero(g) && Fraction(g) == Fraction(f)
    ensures |g| <= |f| && g == f[..|g|]
  {
    if f == [] || f[|f| - 1] != 0 then f
    else
      FractionDropZero(f);
      DropTrailingZeros(f[..|f| - 1])
  }

  /** The canonical form of a decimal: the same number, written as `Number::toString` writes it. */
  function Normalize(d: Decimal): (c: CanonicalDecimal)
    ensures NumberOf(c) == NumberOf(d)
    ensures Canonical(d) ==> c == d
  {
    var f := DropTrailingZeros(d.fraction);
    Decimal(d.negative && (d.whole != 0 || f != []), d.whole, f)
  }

  /**
   * `Number::toString` of a number: an optional minus sign, the whole part,
   * and a point and the fraction digits if there are any.
   */
  function Render(d: CanonicalDecimal): (s: string)
    ensures forall i :: 0 <= i < |s| ==> DecimalChar(s[i])
    ensures |s| > 0 && (s[0] == '-' <==> NumberOf(d) < 0.0)
  {
    CanonicalSign(d);
    var sign := if d.negative then "-" else "";
    var tail := if d.fraction == [] then "" else "." + DigitsText(d.fraction);
    sign + NatToString(d.whole) + tail
  }

  lemma RenderHasNoPercent(d: CanonicalDecimal)
    ensures '%' !in Render(d)
  {
  }

  /** `s.replace('%', '')`: the first percent sign, if any, is removed. */
  function RemovePercent(s: string): (r: string)
    ensures '%' !in s ==> r == s
    ensures '%' in s ==> |r| == |s| - 1
  {
    if s == [] then s
    else if s[0] == '%' then s[1..]
    else [s[0]] + RemovePercent(s[1..])
  }

  lemma {:induction false} RemovePercentFirst(a: string, b: string)
    requires '%' !in a
    ensures RemovePercent(a + "%" + b) == a + b
  {
    var w := a + "%" + b;
    if a == [] {
      assert w == "%" + b && w[1..] == b;
    } else {
      assert w[0] == a[0] != '%';
      assert w[1..] == a[1..] + "%" + b;
      assert '%' !in a[1..];
      RemovePercentFirst(a[1..], b);
      assert RemovePercent(w) == [a[0]] + (a[1..] + b);
      assert [a[0]] + (a[1..] + b) == a + b;
    }
  }

  function SignLength(s: string): (n: nat)
    ensures n <= |s|
  {
    if |s| > 0 && (s[0] == '-' || s[0] == '+') then 1 else 0
  }

  /**
   * The magnitude `parseFloat` reads from text that follows the sign: the
   * longest prefix of the form digits [. digits] with at least one digit, or
   * NaN if there is none.
   */
  function ParseMagnitude(body: string): (v: Value)
    ensures v.Num? ==> v.x >= 0.0
  {
    var w := LeadingDigits(body);
    var afterWhole := body[w..];
    var f := if |afterWhole| > 0 && afterWhole[0] == '.' then LeadingDigits(afterWhole[1..]) else 0;
    if w == 0 && f == 0 then NaN
    else Num(DigitsValue(body[..w]) as real + (if f == 0 then 0.0 else FractionValue(afterWhole[1..][..f])))
  }

  /** `parseFloat(s)`: an optional sign followed by the magnitude above. */
  function ParseFloat(s: string): (v: Value)
    ensures !v.Undefined?
    ensures SignLength(s) == 0 ==> v == ParseMagnitude(s)
  {
    var signLen := SignLength(s);
    var magnitude := ParseMagnitude(s[signLen..]);
    if magnitude.Num? && signLen == 1 && s[0] == '-' then Num(-magnitude.x) else magnitude
  }

  /** `parseInt(s)`: the longest prefix of s of the form [sign] digits, or NaN if there is none. */
  function ParseInt(s: string): (v: Value)
    ensures v.Num? ==> IsInteger(v.x)
    ensures v.Num? <==> LeadingDigits(s[SignLength(s)..]) > 0
  {
    var signLen := SignLength(s);
    var body := s[signLen..];
    var w := LeadingDigits(body);
    if w == 0 then NaN
    else
      var magnitude: int := DigitsValue(body[..w]);
      var n: int := if signLen == 1 && s[0] == '-' then -magnitude else magnitude;
      Num(n as real)
  }

  lemma LeadingDigitsStopAt(d: string, rest: string)
    requires AllDigits(d)
    requires rest == [] || !IsDigitChar(rest[0])
    ensures LeadingDigits(d + rest) == |d|
  {
    assert forall i :: 0 <= i < |d| ==> (d + rest)[i] == d[i];
    assert rest != [] ==> (d + rest)[|d|] == rest[0];
  }

  lemma MagnitudeOfDigits(digits: string)
    requires AllDigits(digits) && |digits| > 0
    ensures ParseMagnitude(digits) == Num(DigitsValue(digits) as real)
  {
    LeadingDigitsStopAt(digits, "");
    assert digits + "" == digits;
    assert digits[..|digits|] == digits;
  }

  lemma MagnitudeOfFraction(digits: string, text: string)
    requires AllDigits(digits) && |digits| > 0 && AllDigits(text) && |text| > 0
    ensures ParseMagnitude(digits + ("." + text)) == Num(DigitsValue(digits) as real + FractionValue(text))
  {
    var point := "." + text;
    var body := digits + point;
    assert point[0] == '.' && point[1..] == text;
    LeadingDigitsStopAt(digits, point);
    assert body[..|digits|] == digits;
    assert body[|digits|..] == point;
    LeadingDigitsStopAt(text, "");
    assert text + "" == text;
    assert text[..|text|] == text;
  }

  /** Parsing the text of a decimal gives back the decimal's value. */
  lemma ParseFloatRender(d: CanonicalDecimal)
    ensures ParseFloat(Render(d)) == Num(NumberOf(d))
  {
    var sign := if d.negative then "-" else "";
    var digits := NatToString(d.whole);
    var tail := if d.fraction == [] then "" else "." + DigitsText(d.fraction);
    var s := Render(d);
    assert s == sign + (digits + tail);
    assert SignLength(s) == |sign|;
    assert s[|sign|..] == digits + tail;
    NatToStringRoundTrip(d.whole);
    ParseMagnitudeRender(d, digits, tail);
  }

  lemma ParseMagnitudeRender(d: Decimal, digits: string, tail: string)
    requires digits == NatToString(d.whole) && DigitsValue(digits) == d.whole
    requires tail == if d.fraction == [] then "" else "." + DigitsText(d.fraction)
    ensures ParseMagnitude(digits + tail) == Num(d.whole as real + Fraction(d.fraction))
  {
    if d.fraction == [] {
      assert digits + tail == digits;
      MagnitudeOfDigits(digits);
    } else {
      DigitsTextValue(d.fraction);
      MagnitudeOfFraction(digits, DigitsText(d.fraction));
    }
  }

  /** Parsing the text of a non-negative integer gives back the integer. */
  lemma ParseIntNatToString(n: nat)
    ensures ParseInt(NatToString(n)) == Num(n as real)
  {
    var s := NatToString(n);
    assert SignLength(s) == 0;
    LeadingDigitsStopAt(s, "");
    assert s + "" == s;
    assert s[0..] == s && s[..|s|] == s;
    NatToStringRoundTrip(n);
  }
}
