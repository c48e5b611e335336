/**
 * `ShortNumberInput`: a small numeric field that reports a new value only
 * when it lies within `[min, max]`, from typing or from the arrow and j/k keys.
 *
 * JavaScript numbers are modelled as exact reals: rounding to double
 * precision, and the overflow of very large literals to `Infinity`, are not
 * modelled.
 */
module ShortNumberInput {
  import opened Wrappers

  const DEFAULT_MIN: real := 0.0
  const DEFAULT_MAX: real := 99.0

  /** A JavaScript number other than `NaN` (which is `None` where it can occur). */
  datatype Num = Finite(x: real) | Infinite(positive: bool)

  /** `setNewValue(v)`: the value passed to `onChange`, or `None` when it is out of range. */
  function SetNewValue(v: real, min: real, max: real): (r: Option<real>)
    ensures r.Some? <==> min <= v <= max
    ensures r.Some? ==> r.value == v
  {
    if v < min || v > max then None else Some(v)
  }

  /** `inc()`. */
  function Inc(value: real, min: real, max: real): (r: Option<real>)
    ensures r.Some? <==> min <= value + 1.0 <= max
    ensures r.Some? ==> r.value == value + 1.0
  {
    SetNewValue(value + 1.0, min, max)
  }

  /** `dec()`. */
  function Dec(value: real, min: real, max: real): (r: Option<real>)
    ensures r.Some? <==> min <= value - 1.0 <= max
    ensures r.Some? ==> r.value == value - 1.0
  {
    SetNewValue(value - 1.0, min, max)
  }

  /** From a value inside the range, stepping up and then down comes back to it. */
  lemma IncThenDec(value: real, min: real, max: real)
    requires min <= value && value + 1.0 <= max
    ensures Inc(value, min, max) == Some(value + 1.0)
    ensures Dec(value + 1.0, min, max) == Some(value)
  {
  }

  /** The white space and line terminators `Number` strips from both ends. */
  predicate IsSpace(c: char) {
    c == ' ' || c == '\t' || c == '\n' || c == '\r' || c == '\U{B}' || c == '\U{C}'
    || c == '\U{A0}' || c == '\U{1680}' || ('\U{2000}' <= c <= '\U{200A}')
    || c == '\U{2028}' || c == '\U{2029}' || c == '\U{202F}' || c == '\U{205F}'
    || c == '\U{3000}' || c == '\U{FEFF}'
  }

  /** The value of `c` as a digit of the given radix (2, 8, 10 or 16), if it is one. */
  function DigitValue(c: char, radix: nat): (v: Option<nat>)
    ensures v.Some? ==> v.value < radix
  {
    var d: int :=
      if '0' <= c <= '9' then c as int - '0' as int
      else if 'a' <= c <= 'f' then c as int - 'a' as int + 10
      else if 'A' <= c <= 'F' then c as int - 'A' as int + 10
      else 16;
    if d < radix then Some(d) else None
  }

  /** Every character from position `from` on is a digit of `radix`. */
  predicate DigitsFrom(s: string, from: nat, radix: nat) {
    forall i :: from <= i < |s| ==> DigitValue(s[i], radix).Some?
  }

  /** The digits `ds` as a number in `radix`. */
  function DigitsValue(ds: string, radix: nat): (n: nat)
    requires DigitsFrom(ds, 0, radix)
  {
    if ds == [] then 0
    else DigitsValue(ds[..|ds| - 1], radix) * radix + DigitValue(ds[|ds| - 1], radix).value
  }

  function TrimStart(s: string): (r: string)
    ensures |r| <= |s| && (r != [] ==> !IsSpace(r[0]))
  {
    if s != [] && IsSpace(s[0]) then TrimStart(s[1..]) else s
  }

  function TrimEnd(s: string): (r: string)
    ensures |r| <= |s| && (r != [] ==> !IsSpace(r[|r| - 1]))
  {
    if s != [] && IsSpace(s[|s| - 1]) then TrimEnd(s[..|s| - 1]) else s
  }

  /** The first position of `a` or `b` in `s`, or `|s|` when neither occurs. */
  function IndexOf(s: string, a: char, b: char): (i: nat)
    ensures i <= |s|
    ensures forall j :: 0 <= j < i ==> s[j] != a && s[j] != b
    ensures i < |s| ==> s[i] == a || s[i] == b
  {
    if s == [] then 0 else if s[0] == a || s[0] == b then 0 else 1 + IndexOf(s[1..], a, b)
  }

  function Pow10(n: nat): (r: real)
    ensures r >= 1.0
  {
    if n == 0 then 1.0 else 10.0 * Pow10(n - 1)
  }

  /** `10` to the power `e`, for an exponent of either sign. */
  function Scale(e: int): (r: real)
    ensures r > 0.0
  {
    if e >= 0 then Pow10(e) else 1.0 / Pow10(-e)
  }

  /** An optionally signed, non-empty run of decimal digits: the exponent of a decimal literal. */
  function SignedInteger(s: string): (r: Option<int>)
    ensures DigitsFrom(s, 0, 10) && s != [] ==> r == Some(DigitsValue(s, 10))
  {
    if s == [] then None
    else if (s[0] == '-' || s[0] == '+') && |s| > 1 && DigitsFrom(s, 1, 10) then
      Some(if s[0] == '-' then 0 - DigitsValue(s[1..], 10) else DigitsValue(s[1..], 10))
    else if DigitsFrom(s, 0, 10) then Some(DigitsValue(s, 10))
    else None
  }

  /** The value of the digits before and after a decimal point. */
  function PointValue(whole: string, fraction: string): (r: real)
    requires DigitsFrom(whole, 0, 10) && DigitsFrom(fraction, 0, 10)
    ensures r >= 0.0
  {
    DigitsValue(whole, 10) as real + DigitsValue(fraction, 10) as real / Pow10(|fraction|)
  }

  /** Digits with an optional fraction after a point, with digits on at least one side of it. */
  function Mantissa(m: string): (r: Option<real>)
    ensures r.Some? ==> r.value >= 0.0
  {
    var d := IndexOf(m, '.', '.');
    var whole := m[..d];
    var fraction := if d < |m| then m[d + 1..] else "";
    if !DigitsFrom(whole, 0, 10) || !DigitsFrom(fraction, 0, 10) || whole + fraction == [] then None
    else Some(PointValue(whole, fraction))
  }

  /** A mantissa times ten to the power of its exponent. */
  function Scaled(m: real, e: int): real {
    m * Scale(e)
  }

  /** An unsigned decimal literal: a mantissa, then an optional exponent after `e` or `E`. */
  function Decimal(s: string): (r: Option<real>)
  {
    var e := IndexOf(s, 'e', 'E');
    var exponent := if e == |s| then Some(0) else SignedInteger(s[e + 1..]);
    match (Mantissa(s[..e]), exponent)
    case (Some(m), Some(x)) => Some(Scaled(m, x))
    case _ => None
  }

  /** A `0x`, `0o` or `0b` literal (no sign allowed) in its radix. */
  function Prefixed(t: string): (r: Option<nat>)
  {
    if |t| > 2 && t[0] == '0' then
      var radix := if t[1] in "xX" then 16 else if t[1] in "oO" then 8 else if t[1] in "bB" then 2 else 0;
      if radix != 0 && DigitsFrom(t, 2, radix) then Some(DigitsValue(t[2..], radix)) else None
    else None
  }

  /**
   * `Number(text)`: surrounding white space is ignored, an empty text is 0,
   * `Infinity` may carry a sign, a `0x`/`0o`/`0b` literal is read in its
   * radix, a decimal literal may carry a sign, and anything else is `NaN`
   * (`None`).
   */
  function ToNumber(text: string): (r: Option<Num>) {
    var t := TrimEnd(TrimStart(text));
    if t == [] then Some(Finite(0.0))
    else if t == "Infinity" || t == "+Infinity" then Some(Infinite(true))
    else if t == "-Infinity" then Some(Infinite(false))
    else if Prefixed(t).Some? then Some(Finite(Prefixed(t).value as real))
    else SignedDecimal(t)
  }

  /** A decimal literal with an optional sign. */
  function SignedDecimal(t: string): (r: Option<Num>)
    requires t != []
  {
    var body := if t[0] == '-' || t[0] == '+' then t[1..] else t;
    match Decimal(body)
    case Some(x) => Some(Finite(if t[0] == '-' then -x else x))
    case None => None
  }

  /** `v < min || v > max` for any number, infinities included. */
  function SetNewNumber(v: Num, min: real, max: real): (r: Option<real>)
    ensures r.Some? <==> v.Finite? && min <= v.x <= max
    ensures r.Some? ==> r.value == v.x
  {
    match v
    case Finite(x) => SetNewValue(x, min, max)
    case Infinite(_) => None
  }

  /** The input's `onChange`: non-numeric text is ignored; a number goes through the range check. */
  function OnChange(text: string, min: real, max: real): (r: Option<real>)
    ensures r.Some? <==> exists x :: ToNumber(text) == Some(Finite(x)) && min <= x <= max
    ensures r.Some? ==> ToNumber(text) == Some(Finite(r.value))
  {
    match ToNumber(text)
    case None => None
    case Some(v) => SetNewNumber(v, min, max)
  }

  /** Text with no surrounding space, no `Infinity` and no radix prefix is read as a signed decimal literal. */
  lemma ToNumberPlain(t: string)
    requires t != [] && !IsSpace(t[0]) && !IsSpace(t[|t| - 1])
    requires t != "Infinity" && t != "+Infinity" && t != "-Infinity" && Prefixed(t).None?
    ensures ToNumber(t) == SignedDecimal(t)
  {
    assert TrimStart(t) == t;
    assert TrimEnd(t) == t;
  }

  /** Typed digits are read as their decimal value. */
  lemma ToNumberDigits(ds: string)
    requires ds != [] && DigitsFrom(ds, 0, 10)
    ensures ToNumber(ds) == Some(Finite(DigitsValue(ds, 10) as real))
  {
    assert DigitValue(ds[0], 10).Some? && DigitValue(ds[|ds| - 1], 10).Some?;
    assert ds != "Infinity" && ds != "+Infinity" && ds != "-Infinity" by {
      assert DigitValue('I', 10).None? && DigitValue('+', 10).None? && DigitValue('-', 10).None?;
    }
    PrefixedDigits(ds);
    ToNumberPlain(ds);
    SignedDigits(ds);
  }

  /** A `0x` literal is read in base 16. */
  lemma ToNumberHex(ds: string)
    requires ds != [] && DigitsFrom(ds, 0, 16)
    ensures ToNumber("0x" + ds) == Some(Finite(DigitsValue(ds, 16) as real))
  {
    var t := "0x" + ds;
    assert DigitValue(t[|t| - 1], 16).Some?;
    assert TrimStart(t) == t;
    assert TrimEnd(t) == t;
    assert t[0] == '0' && t[1] == 'x';
    assert t[2..] == ds;
    assert DigitsFrom(t, 2, 16);
  }

  /** Signed text other than `-Infinity` is the negated decimal literal after the sign. */
  lemma ToNumberMinus(t: string, x: real)
    requires |t| > 1 && t[0] == '-' && !IsSpace(t[|t| - 1]) && t != "-Infinity"
    requires Decimal(t[1..]) == Some(x)
    ensures ToNumber(t) == Some(Finite(-x))
  {
    ToNumberPlain(t);
    MinusDecimal(t, x);
  }

  /** A minus sign negates the decimal literal after it. */
  lemma MinusDecimal(t: string, x: real)
    requires t != [] && t[0] == '-' && Decimal(t[1..]) == Some(x)
    ensures SignedDecimal(t) == Some(Finite(-x))
  {
  }

  /** Decimal digits never form a `0x`, `0o` or `0b` literal. */
  lemma PrefixedDigits(ds: string)
    requires DigitsFrom(ds, 0, 10)
    ensures Prefixed(ds).None?
  {
    if |ds| > 2 {
      assert DigitValue(ds[1], 10).Some?;
    }
  }

  /** Unsigned digits read as a signed literal keep their value. */
  lemma SignedDigits(ds: string)
    requires ds != [] && DigitsFrom(ds, 0, 10)
    ensures SignedDecimal(ds) == Some(Finite(DigitsValue(ds, 10) as real))
  {
    assert DigitValue(ds[0], 10).Some?;
    assert ds[0] != '-' && ds[0] != '+';
    DecimalDigits(ds);
  }

  /** Neither `a` nor `b` occurs in `s`. */
  predicate NoMarks(s: string, a: char, b: char) {
    forall i :: 0 <= i < |s| ==> s[i] != a && s[i] != b
  }

  lemma DigitsNoMarks(ds: string)
    requires DigitsFrom(ds, 0, 10)
    ensures NoMarks(ds, 'e', 'E') && NoMarks(ds, '.', '.')
  {
    forall i | 0 <= i < |ds|
      ensures ds[i] != 'e' && ds[i] != 'E' && ds[i] != '.'
    {
      assert DigitValue(ds[i], 10).Some?;
    }
  }

  /** The first mark of `x + [c] + y` is `c` when `x` holds none. */
  lemma IndexOfFirst(x: string, c: char, y: string, a: char, b: char)
    requires NoMarks(x, a, b) && (c == a || c == b)
    ensures IndexOf(x + [c] + y, a, b) == |x|
  {
    var s := x + [c] + y;
    var i := IndexOf(s, a, b);
    assert s[|x|] == c;
    assert forall j :: 0 <= j < |x| ==> s[j] == x[j];
  }

  /** A literal without an exponent is its mantissa. */
  lemma DecimalNoExponent(m: string)
    requires NoMarks(m, 'e', 'E')
    ensures Decimal(m) == Mantissa(m)
  {
    assert m[..|m|] == m;
    assert Scale(0) == 1.0;
  }

  /** Digits without a point are their integer value. */
  lemma MantissaDigits(ds: string)
    requires ds != [] && DigitsFrom(ds, 0, 10)
    ensures Mantissa(ds) == Some(DigitsValue(ds, 10) as real)
  {
    DigitsNoMarks(ds);
    MantissaWhole(ds);
    PointValueWhole(ds);
  }

  lemma MantissaWhole(m: string)
    requires m != [] && DigitsFrom(m, 0, 10) && NoMarks(m, '.', '.')
    ensures Mantissa(m) == Some(PointValue(m, ""))
  {
    assert IndexOf(m, '.', '.') == |m|;
    assert m[..|m|] == m;
  }

  lemma PointValueWhole(ds: string)
    requires DigitsFrom(ds, 0, 10)
    ensures PointValue(ds, "") == DigitsValue(ds, 10) as real
  {
    assert DigitsValue("", 10) == 0 && Pow10(0) == 1.0;
  }

  /** A run of decimal digits, read as a decimal literal, is its integer value. */
  lemma DecimalDigits(ds: string)
    requires ds != [] && DigitsFrom(ds, 0, 10)
    ensures Decimal(ds) == Some(DigitsValue(ds, 10) as real)
  {
    DigitsNoMarks(ds);
    DecimalNoExponent(ds);
    MantissaDigits(ds);
  }

  /** A decimal point followed by digits adds the fraction they spell. */
  lemma DecimalFraction(whole: string, fraction: string)
    requires DigitsFrom(whole, 0, 10) && DigitsFrom(fraction, 0, 10) && whole + fraction != []
    ensures Decimal(whole + "." + fraction) == Some(PointValue(whole, fraction))
  {
    var s := whole + "." + fraction;
    DigitsNoMarks(whole);
    DigitsNoMarks(fraction);
    assert NoMarks(s, 'e', 'E') by {
      forall i | 0 <= i < |s| ensures s[i] != 'e' && s[i] != 'E' {
        if i < |whole| { assert s[i] == whole[i]; }
        else if i > |whole| { assert s[i] == fraction[i - |whole| - 1]; }
      }
    }
    DecimalNoExponent(s);
    IndexOfFirst(whole, '.', fraction, '.', '.');
    assert s[..|whole|] == whole && s[|whole| + 1..] == fraction;
  }

  /** An exponent scales the mantissa by the power of ten it names. */
  lemma DecimalExponent(ds: string, es: string)
    requires ds != [] && DigitsFrom(ds, 0, 10) && es != [] && DigitsFrom(es, 0, 10)
    ensures Decimal(ds + "e" + es) == Some(Scaled(DigitsValue(ds, 10) as real, DigitsValue(es, 10)))
  {
    var s := ds + "e" + es;
    DigitsNoMarks(ds);
    IndexOfFirst(ds, 'e', es, 'e', 'E');
    assert s[..|ds|] == ds && s[|ds| + 1..] == es;
    MantissaDigits(ds);
  }

  /** `Infinity` of either sign is never in a range of finite bounds, so it is ignored. */
  lemma InfinityIgnored(text: string, min: real, max: real)
    requires ToNumber(text).Some? && ToNumber(text).value.Infinite?
    ensures OnChange(text, min, max).None?
  {
  }

  /** Clearing the field reports 0 exactly when 0 is in range. */
  lemma EmptyTextIsZero(min: real, max: real)
    ensures OnChange("", min, max) == (if min <= 0.0 <= max then Some(0.0) else None)
  {
  }

  /** `onKeyDown`: ArrowUp and `k` step up, ArrowDown and `j` step down, other keys do nothing. */
  function OnKeyDown(key: string, value: real, min: real, max: real): (r: Option<real>)
    ensures key != "ArrowUp" && key != "k" && key != "ArrowDown" && key != "j" ==> r.None?
    ensures r.Some? ==> min <= r.value <= max && (r.value == value + 1.0 || r.value == value - 1.0)
    ensures r.Some? && r.value == value + 1.0 ==> key == "ArrowUp" || key == "k"
    ensures r.Some? && r.value == value - 1.0 ==> key == "ArrowDown" || key == "j"
  {
    if key == "ArrowUp" || key == "k" then Inc(value, min, max)
    else if key == "ArrowDown" || key == "j" then Dec(value, min, max)
    else None
  }
}
