/**
 * JavaScript's `parseFloat` on a token, as the engine uses it: both to decide
 * whether a token is a value (`!isNaN(parseFloat(token))`) and to read its value.
 * parseFloat skips leading white space, takes an optional sign and then the
 * longest prefix that is `Infinity` or a decimal literal
 * `digits [. digits] [(e|E) [+|-] digits]` with at least one mantissa digit.
 */
module JsNumber {
  import opened Chars
  import opened Numeric

  /** The white space and line terminators that parseFloat skips. */
  predicate IsStrWhiteSpace(c: char)
  {
    c == ' ' || c == '\t' || c == '\n' || c == '\r' || c == '\U{000B}' || c == '\U{000C}'
    || c == '\U{00A0}' || c == '\U{FEFF}' || c == '\U{1680}' || '\U{2000}' <= c <= '\U{200A}'
    || c == '\U{2028}' || c == '\U{2029}' || c == '\U{202F}' || c == '\U{205F}' || c == '\U{3000}'
  }

  function TrimStart(t: string): (r: string)
    ensures |r| <= |t| && r == t[|t| - |r|..]
    ensures r == [] || !IsStrWhiteSpace(r[0])
  {
    if |t| > 0 && IsStrWhiteSpace(t[0]) then TrimStart(t[1..]) else t
  }

  function Unsigned(u: string): string
  {
    if |u| > 0 && (u[0] == '+' || u[0] == '-') then u[1..] else u
  }

  function SignOf(u: string): real
  {
    if |u| > 0 && u[0] == '-' then -1.0 else 1.0
  }

  /** The text parseFloat reads after white space and sign. */
  function Body(t: string): string { Unsigned(TrimStart(t)) }

  function IntEnd(v: string): nat { DigitsEnd(v, 0) }

  predicate HasPoint(v: string) { IntEnd(v) < |v| && v[IntEnd(v)] == '.' }

  /** The end of the mantissa (integer digits, then `.` and fraction digits if present). */
  function FracEnd(v: string): (r: nat)
    ensures IntEnd(v) <= r <= |v|
  {
    if HasPoint(v) then DigitsEnd(v, IntEnd(v) + 1) else IntEnd(v)
  }

  function FracDigits(v: string): string
  {
    if HasPoint(v) then v[IntEnd(v) + 1..FracEnd(v)] else ""
  }

  /** A decimal literal needs one digit before or after the point. */
  predicate HasMantissa(v: string) { IntEnd(v) > 0 || |FracDigits(v)| > 0 }

  /** `!isNaN(parseFloat(t))`. */
  predicate IsNumeric(t: string)
  {
    var v := Body(t);
    (|v| >= 8 && v[..8] == "Infinity") || HasMantissa(v)
  }

  function DigitValue(c: char): nat
    requires IsDigit(c)
  {
    (c as int - '0' as int) as nat
  }

  /** The value of a string of decimal digits. */
  function NatValue(ds: string): nat
    requires AllDigits(ds)
  {
    if ds == [] then 0 else 10 * NatValue(ds[..|ds| - 1]) + DigitValue(ds[|ds| - 1])
  }

  function Pow10Nat(e: nat): (r: nat)
    ensures r >= 1
  {
    if e == 0 then 1 else 10 * Pow10Nat(e - 1)
  }

  function Pow10(e: int): real
  {
    if e >= 0 then Pow10Nat(e) as real else 1.0 / (Pow10Nat(-e) as real)
  }

  /** The exponent part after the mantissa; 0 when absent or when it has no digits. */
  function Exponent(v: string): int
  {
    var p := FracEnd(v);
    if p < |v| && (v[p] == 'e' || v[p] == 'E') then
      var q := if p + 1 < |v| && (v[p + 1] == '+' || v[p + 1] == '-') then p + 2 else p + 1;
      var e := DigitsEnd(v, q);
      if e > q then
        (if q == p + 2 && v[p + 1] == '-' then -1 else 1) * NatValue(v[q..e])
      else 0
    else 0
  }

  function DecimalValue(v: string): real
  {
    var frac := FracDigits(v);
    (NatValue(v[..IntEnd(v)]) as real + NatValue(frac) as real / (Pow10Nat(|frac|) as real))
      * Pow10(Exponent(v))
  }

  /**
   * `parseFloat(t)` for a token it reads as a number: a literal that starts
   * with a digit reads as its decimal value.
   */
  function ParseFloat(m: MathLib, t: string): (r: real)
    requires IsNumeric(t)
    ensures |t| > 0 && IsDigit(t[0]) ==> r == DecimalValue(t)
  {
    DigitParts(t);
    var u := TrimStart(t);
    var v := Unsigned(u);
    SignOf(u) * (if |v| >= 8 && v[..8] == "Infinity" then m.infinity else DecimalValue(v))
  }

  /** A `-` in front of a literal that starts with a digit negates its value. */
  lemma ParseFloatNegated(m: MathLib, t: string)
    requires IsNumeric(t) && |t| > 1 && t[0] == '-' && IsDigit(t[1])
    ensures IsNumeric(t[1..]) && ParseFloat(m, t) == -ParseFloat(m, t[1..])
  {
    DigitParts(t[1..]);
    assert !IsStrWhiteSpace(t[0]);
    DigitTokenNumeric(t[1..]);
  }

  /** Literals that start with a digit are read without trim, sign or `Infinity`. */
  lemma DigitParts(t: string)
    ensures |t| > 0 && IsDigit(t[0]) ==>
      TrimStart(t) == t && Unsigned(t) == t && SignOf(t) == 1.0 && !(|t| >= 8 && t[..8] == "Infinity")
  {
    if |t| > 0 && IsDigit(t[0]) {
      NotTrimmed(t);
      NotInfinity(t);
    }
  }

  /** Text that does not start with white space is left as it is by the trim. */
  lemma NotTrimmed(t: string)
    requires |t| > 0 && '0' <= t[0] <= '9'
    ensures TrimStart(t) == t
  {
    assert !IsStrWhiteSpace(t[0]);
  }

  /** Text whose first character is not `I` does not spell `Infinity`. */
  lemma NotInfinity(t: string)
    requires |t| > 0 && t[0] != 'I'
    ensures !(|t| >= 8 && t[..8] == "Infinity")
  {
    if |t| >= 8 {
      assert t[..8][0] == t[0];
    }
  }

  /** Text that starts with neither white space nor a sign is read as it is. */
  lemma BodyOfPlain(t: string)
    requires |t| > 0 && !IsStrWhiteSpace(t[0]) && t[0] != '+' && t[0] != '-'
    ensures TrimStart(t) == t && Body(t) == t
  {
  }

  /** Text that starts with neither a digit nor a point has no mantissa. */
  lemma NoMantissa(v: string)
    requires |v| > 0 && !IsDigit(v[0]) && v[0] != '.'
    ensures !HasMantissa(v)
  {
    assert IntEnd(v) == 0;
  }

  /**
   * How the engine's own tokens classify: one starting with a digit is a value,
   * an operator or a parenthesis is not, and a name is a value exactly when it
   * starts with `Infinity`.
   */
  lemma TokenClasses(t: string)
    requires |t| > 0
    ensures IsDigit(t[0]) ==> IsNumeric(t)
    ensures IsLetter(t[0]) ==> (IsNumeric(t) <==> |t| >= 8 && t[..8] == "Infinity")
    ensures IsOpToken(t) || t == "(" || t == ")" ==> !IsNumeric(t)
  {
    if IsDigit(t[0]) {
      DigitTokenNumeric(t);
    } else if IsLetter(t[0]) {
      NameTokenClass(t);
    } else if IsOpToken(t) || t == "(" || t == ")" {
      PunctuationNotNumeric(t);
    }
  }

  lemma DigitTokenNumeric(t: string)
    requires |t| > 0 && IsDigit(t[0])
    ensures IsNumeric(t)
  {
    BodyOfPlain(t);
    assert IntEnd(t) > 0;
  }

  lemma NameTokenClass(t: string)
    requires |t| > 0 && IsLetter(t[0])
    ensures IsNumeric(t) <==> |t| >= 8 && t[..8] == "Infinity"
  {
    BodyOfPlain(t);
    NoMantissa(t);
  }

  lemma PunctuationNotNumeric(t: string)
    requires |t| > 0 && (IsOpToken(t) || t == "(" || t == ")")
    ensures !IsNumeric(t)
  {
    var c := t[0];
    assert |t| == 1;
    assert !IsStrWhiteSpace(c);
    if c == '+' || c == '-' {
      SignAlone(t);
    } else {
      BodyOfPlain(t);
      NoMantissa(t);
    }
  }

  /** A lone sign leaves nothing to read. */
  lemma SignAlone(t: string)
    requires |t| == 1 && (t[0] == '+' || t[0] == '-')
    ensures Body(t) == [] && !IsNumeric(t)
  {
    SignNotTrimmed(t);
    EmptyHasNoMantissa();
  }

  lemma SignNotTrimmed(t: string)
    requires |t| == 1 && (t[0] == '+' || t[0] == '-')
    ensures Body(t) == []
  {
    assert !IsStrWhiteSpace(t[0]);
    assert TrimStart(t) == t;
  }

  lemma EmptyHasNoMantissa()
    ensures !HasMantissa([])
  {
    assert IntEnd([]) == 0;
  }

  /** A string of digits reads as its decimal value. */
  lemma ParseFloatOfDigits(m: MathLib, t: string)
    requires |t| > 0 && AllDigits(t)
    ensures IsNumeric(t) && ParseFloat(m, t) == NatValue(t) as real
  {
    DigitsEndOfDigits(t, 0);
    AllIntegerPart(t);
    DigitsReadPlain(m, t);
  }

  /** Digits carry no sign and do not spell `Infinity`: parseFloat reads their decimal value. */
  lemma DigitsReadPlain(m: MathLib, t: string)
    requires |t| > 0 && IsDigit(t[0]) && IntEnd(t) > 0
    ensures IsNumeric(t) && ParseFloat(m, t) == DecimalValue(t)
  {
    BodyOfPlain(t);
    assert SignOf(t) == 1.0;
    assert !(|t| >= 8 && t[..8] == "Infinity") by {
      if |t| >= 8 {
        assert t[..8][0] == t[0] != 'I';
      }
    }
  }

  /** Text made only of digits has no fraction and no exponent: its value is that of its digits. */
  lemma AllIntegerPart(t: string)
    requires IntEnd(t) == |t|
    ensures FracDigits(t) == "" && Exponent(t) == 0 && DecimalValue(t) == NatValue(t) as real
  {
    NoFractionNoExponent(t);
    assert t[..IntEnd(t)] == t;
    IntegerValue(t, NatValue(t));
  }

  lemma NoFractionNoExponent(t: string)
    requires IntEnd(t) == |t|
    ensures FracDigits(t) == "" && Exponent(t) == 0
  {
    assert !HasPoint(t);
    assert FracEnd(t) == |t|;
  }

  lemma IntegerValue(t: string, n: nat)
    requires FracDigits(t) == "" && Exponent(t) == 0 && NatValue(t[..IntEnd(t)]) == n
    ensures DecimalValue(t) == n as real
  {
    assert Pow10Nat(0) == 1;
    assert Pow10(0) == 1.0;
  }

  lemma {:induction false} DigitsEndOfDigits(t: string, i: nat)
    requires i <= |t| && AllDigits(t)
    ensures DigitsEnd(t, i) == |t|
    decreases |t| - i
  {
    if i < |t| {
      DigitsEndOfDigits(t, i + 1);
    }
  }
}
