/**
 * Python's `int()` and `float()` on text, and `float()` on the values the
 * banking program passes around, with ASCII decimal literals only and
 * amounts as exact reals.
 */
module PyNumbers {
  import opened Wrappers
  import opened PyText

  function DigitValue(c: char): nat {
    if IsDigit(c) then c as int - '0' as int else 0
  }

  function Digit(d: nat): char
    requires d < 10
  {
    ('0' as int + d) as char
  }

  /** The number a run of decimal digits denotes, most significant digit first. */
  function DigitsValue(ds: string): nat {
    if ds == [] then 0 else DigitsValue(ds[..|ds| - 1]) * 10 + DigitValue(ds[|ds| - 1])
  }

  function Pow10(k: nat): (r: nat)
    ensures r >= 1
  {
    if k == 0 then 1 else 10 * Pow10(k - 1)
  }

  /** An integer literal once the surrounding whitespace is gone: an optional sign, then one or more digits. */
  function ParseIntLiteral(s: string): Option<int> {
    if s != [] && (s[0] == '+' || s[0] == '-') then
      var digits := s[1..];
      var magnitude: int := DigitsValue(digits);
      if digits != [] && AllDigits(digits) then
        Some(if s[0] == '-' then -magnitude else magnitude)
      else
        None
    else if s != [] && AllDigits(s) then
      Some(DigitsValue(s))
    else
      None
  }

  /** `int(s)` for a `str` argument: whitespace around the literal is allowed, anything else is a ValueError (None). */
  function ParseInt(s: string): Option<int> {
    ParseIntLiteral(Strip(s))
  }

  /** Position of the first '.' in `s`, or `|s|` when there is none. */
  function FindDot(s: string): (k: nat)
    ensures k <= |s|
    ensures k < |s| ==> s[k] == '.'
    ensures forall i :: 0 <= i < k ==> s[i] != '.'
  {
    if s == [] || s[0] == '.' then 0 else 1 + FindDot(s[1..])
  }

  /** The value of the digits `whole`, a point, then the digits `fraction`. */
  function DecimalValue(whole: string, fraction: string): real {
    DigitsValue(whole) as real + DigitsValue(fraction) as real / Pow10(|fraction|) as real
  }

  /** An unsigned decimal literal: digits, optionally a point and more digits, at least one digit in all. */
  function ParseUnsignedDecimal(s: string): Option<real> {
    var k := FindDot(s);
    var whole := s[..k];
    var fraction := if k < |s| then s[k + 1..] else [];
    if AllDigits(whole) && AllDigits(fraction) && |whole| + |fraction| > 0 then
      Some(DecimalValue(whole, fraction))
    else
      None
  }

  function ParseFloatLiteral(s: string): Option<real> {
    if s != [] && (s[0] == '+' || s[0] == '-') then
      match ParseUnsignedDecimal(s[1..])
      case None => None
      case Some(x) => Some(if s[0] == '-' then -x else x)
    else
      ParseUnsignedDecimal(s)
  }

  /** `float(s)` for a `str` argument. */
  function ParseFloat(s: string): Option<real> {
    ParseFloatLiteral(Strip(s))
  }

  /** The dynamically typed values that reach `float()` in the program: text, an int, a float. */
  datatype Scalar = Str(s: string) | Int(i: int) | Float(x: real)

  /** `float(v)`: None stands for the ValueError raised on text that is not a number. */
  function ToFloat(v: Scalar): Option<real> {
    match v
    case Str(s) => ParseFloat(s)
    case Int(i) => Some(i as real)
    case Float(x) => Some(x)
  }

  /** `str(n)` for a natural number. */
  function NatToString(n: nat): (r: string)
    ensures r != [] && AllDigits(r)
  {
    if n < 10 then [Digit(n)] else NatToString(n / 10) + [Digit(n % 10)]
  }

  /** `str(n)` for an int. */
  function IntToString(n: int): (r: string)
    ensures r != []
  {
    if n < 0 then "-" + NatToString(-n) else NatToString(n)
  }

  lemma {:induction false} DigitsValueOfNatToString(n: nat)
    ensures DigitsValue(NatToString(n)) == n
  {
    var r := NatToString(n);
    if n >= 10 {
      DigitsValueOfNatToString(n / 10);
      assert r[..|r| - 1] == NatToString(n / 10);
    }
  }

  /** `str(n)` has no whitespace around it, so stripping it is the identity. */
  lemma IntToStringStripped(n: int)
    ensures Strip(IntToString(n)) == IntToString(n)
  {
    var r := IntToString(n);
    var digits := NatToString(if n < 0 then -n else n);
    assert !IsSpace(digits[|digits| - 1]);
    assert r[|r| - 1] == digits[|digits| - 1];
  }

  /** `int(str(n)) == n`. */
  lemma ParseIntRoundTrip(n: int)
    ensures ParseInt(IntToString(n)) == Some(n)
  {
    IntToStringStripped(n);
    if n < 0 {
      DigitsValueOfNatToString(-n);
      assert IntToString(n)[1..] == NatToString(-n);
    } else {
      DigitsValueOfNatToString(n);
    }
  }

  /** A run of digits has no point in it. */
  lemma FindDotInDigits(s: string)
    requires AllDigits(s)
    ensures FindDot(s) == |s|
  {
    if FindDot(s) < |s| {
      assert s[FindDot(s)] == '.';
    }
  }

  /** A run of digits read as a decimal literal is its integer value. */
  lemma UnsignedDecimalOfDigits(digits: string)
    requires digits != [] && AllDigits(digits)
    ensures ParseUnsignedDecimal(digits) == Some(DigitsValue(digits) as real)
  {
    FindDotInDigits(digits);
    assert digits[..|digits|] == digits;
  }

  /** The digits of `w`, a point, then the digits of `f`: the point is the first one. */
  lemma FindDotOfDecimal(w: string, f: string)
    requires AllDigits(w)
    ensures FindDot(w + "." + f) == |w|
  {
    var s := w + "." + f;
    var k := FindDot(s);
    assert s[|w|] == '.';
  }

  /** A decimal literal `w.f` reads as the whole part plus the fraction scaled by its length. */
  lemma UnsignedDecimalOfParts(w: string, f: string)
    requires AllDigits(w) && AllDigits(f) && |w| + |f| > 0
    ensures ParseUnsignedDecimal(w + "." + f) == Some(DecimalValue(w, f))
  {
    var s := w + "." + f;
    FindDotOfDecimal(w, f);
    var k := FindDot(s);
    var whole, fraction := s[..k], if k < |s| then s[k + 1..] else [];
    assert whole == w;
    assert fraction == f;
    assert AllDigits(whole) && AllDigits(fraction) && |whole| + |fraction| > 0;
  }

  /** A decimal written out is positive iff one of its digits is non-zero. */
  lemma DecimalValuePositive(whole: string, fraction: string)
    ensures DecimalValue(whole, fraction) > 0.0 <==> DigitsValue(whole) > 0 || DigitsValue(fraction) > 0
  {
    var w, f, scale := DigitsValue(whole) as real, DigitsValue(fraction) as real, Pow10(|fraction|) as real;
    assert scale >= 1.0;
    assert f / scale >= 0.0;
    assert f > 0.0 ==> f / scale > 0.0;
    assert DecimalValue(whole, fraction) == w + f / scale;
  }

  /** `float()` of a decimal literal `w.f`: the whole part plus the fraction scaled by its length. */
  lemma ParseFloatOfDecimal(w: string, f: string)
    requires AllDigits(w) && AllDigits(f) && |w| + |f| > 0
    ensures ParseFloat(w + "." + f) == Some(DecimalValue(w, f))
  {
    var s := w + "." + f;
    assert s[0] == (if w == [] then '.' else w[0]);
    assert s[|s| - 1] == (if f == [] then '.' else f[|f| - 1]);
    assert Strip(s) == s;
    UnsignedDecimalOfParts(w, f);
  }

  /** The amount typed as "99.99" is read as 99.99. */
  lemma ParseFloatExample()
    ensures ParseFloat("99.99") == Some(99.99)
  {
    var nn := "99";
    assert nn[..1] == "9" && "9"[..0] == [];
    assert DigitsValue(nn) == 99;
    assert Pow10(|nn|) == 100;
    assert DecimalValue(nn, nn) == 99.99;
    ParseFloatOfDecimal(nn, nn);
    assert nn + "." + nn == "99.99";
  }

  /** `float(str(n)) == n`. */
  lemma ParseFloatOfIntString(n: int)
    ensures ParseFloat(IntToString(n)) == Some(n as real)
  {
    IntToStringStripped(n);
    var digits := NatToString(if n < 0 then -n else n);
    DigitsValueOfNatToString(if n < 0 then -n else n);
    UnsignedDecimalOfDigits(digits);
    if n < 0 {
      assert IntToString(n)[1..] == digits;
    }
  }

  /** Text that contains a letter is not a number: `int()` raises ValueError on it. */
  lemma ParseIntRejectsLetters(s: string, k: nat)
    requires k < |s| && IsAsciiLetter(s[k])
    ensures ParseInt(s) == None
  {
    StripKeepsContent(s, k);
  }

  /** Text that contains a letter is not a literal of the modelled grammar (sign, digits, one point);
      the exponent and inf/nan spellings that Python's `float()` also accepts are outside it. */
  lemma ParseFloatRejectsLetters(s: string, k: nat)
    requires k < |s| && IsAsciiLetter(s[k])
    ensures ParseFloat(s) == None
  {
    StripKeepsContent(s, k);
    var t := Strip(s);
    var j :| 0 <= j < |t| && t[j] == s[k];
    if t != [] && (t[0] == '+' || t[0] == '-') {
      UnsignedDecimalRejectsLetters(t[1..], j - 1);
    } else {
      UnsignedDecimalRejectsLetters(t, j);
    }
  }

  lemma UnsignedDecimalRejectsLetters(s: string, k: int)
    requires 0 <= k < |s| && IsAsciiLetter(s[k])
    ensures ParseUnsignedDecimal(s) == None
  {
    var d := FindDot(s);
    if k < d {
      assert s[..d][k] == s[k];
    } else {
      assert s[d + 1..][k - d - 1] == s[k];
    }
  }
}
