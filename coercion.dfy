/**
 * JavaScript's `Number(value)`, which `z.coerce.number()` applies before it
 * checks its input. Strings follow the StringToNumber grammar of ECMAScript
 * (section 7.1.4.1.1 of ECMA-262): surrounding white space is ignored, ""
 * is 0, and what remains must be a decimal literal (with an optional sign,
 * fraction and exponent), `Infinity`, or a 0x / 0o / 0b integer. Values are
 * kept as exact reals: rounding to the nearest double is not modelled.
 */
module Coercion {
  import opened JsValues
  import opened JsText

  /** The value of a digit in bases up to 16, or -1 for any other character. */
  function DigitValue(c: char): int {
    if '0' <= c <= '9' then c as int - '0' as int
    else if 'a' <= c <= 'f' then c as int - 'a' as int + 10
    else if 'A' <= c <= 'F' then c as int - 'A' as int + 10
    else -1
  }

  predicate AllDigitsIn(s: string, base: nat) {
    forall i :: 0 <= i < |s| ==> 0 <= DigitValue(s[i]) < base
  }

  /** The natural number a string of digits denotes, most significant digit first. */
  function DigitsValue(s: string, base: nat): nat
    requires AllDigitsIn(s, base)
  {
    if s == [] then 0 else DigitsValue(s[..|s| - 1], base) * base + DigitValue(s[|s| - 1])
  }

  function Pow10(e: nat): nat {
    if e == 0 then 1 else 10 * Pow10(e - 1)
  }

  /** `m` times ten to the power `e`. */
  function Scale(m: real, e: int): real {
    if e >= 0 then m * Pow10(e) as real
    else assert Pow10(-e) > 0 by { Pow10Positive(-e); } m / Pow10(-e) as real
  }

  lemma {:induction false} Pow10Positive(e: nat)
    ensures Pow10(e) > 0
  {
    if e > 0 { Pow10Positive(e - 1); }
  }

  /** The first position of a character of `cs` in `s`, or `|s|` when there is none. */
  function Find(s: string, cs: set<char>): (i: nat)
    ensures i <= |s|
    ensures i < |s| ==> s[i] in cs
    ensures forall j :: 0 <= j < i ==> s[j] !in cs
  {
    if s == [] || s[0] in cs then 0 else 1 + Find(s[1..], cs)
  }

  lemma {:induction false} FindAbsent(s: string, cs: set<char>)
    requires forall i :: 0 <= i < |s| ==> s[i] !in cs
    ensures Find(s, cs) == |s|
  {
    if s != [] {
      assert forall i :: 0 <= i < |s[1..]| ==> s[1..][i] == s[i + 1];
      FindAbsent(s[1..], cs);
    }
  }

  /** `[+-]? digits`, the part of an exponent after the `e`. */
  function SignedInteger(x: string): (r: (bool, int))
  {
    var negative := x != [] && x[0] == '-';
    var digits := if x != [] && x[0] in {'+', '-'} then x[1..] else x;
    if digits != [] && AllDigitsIn(digits, 10) then
      (true, if negative then -(DigitsValue(digits, 10) as int) else DigitsValue(digits, 10))
    else (false, 0)
  }

  /** `StrUnsignedDecimalLiteral` other than `Infinity`: `1`, `1.`, `.5`, `1.5e-3`, ... */
  function UnsignedDecimal(t: string): JsValue {
    var e := Find(t, {'e', 'E'});
    var mantissa := t[..e];
    var exponent := if e < |t| then SignedInteger(t[e + 1..]) else (true, 0);
    var dot := Find(mantissa, {'.'});
    var whole := mantissa[..dot];
    var fraction := if dot < |mantissa| then mantissa[dot + 1..] else "";
    if AllDigitsIn(whole, 10) && AllDigitsIn(fraction, 10) && |whole| + |fraction| > 0 && exponent.0 then
      Pow10Positive(|fraction|);
      var m := DigitsValue(whole, 10) as real + DigitsValue(fraction, 10) as real / Pow10(|fraction|) as real;
      JsNumber(Scale(m, exponent.1))
    else JsNaN
  }

  /** `Number(s)` for a string `s`. */
  function StringToNumber(s: string): JsValue {
    var t := Trim(s);
    if t == [] then JsNumber(0.0)
    else if |t| >= 2 && t[0] == '0' && t[1] in {'x', 'X', 'o', 'O', 'b', 'B'} then
      var base := if t[1] in {'x', 'X'} then 16 else if t[1] in {'o', 'O'} then 8 else 2;
      if |t| > 2 && AllDigitsIn(t[2..], base) then JsNumber(DigitsValue(t[2..], base) as real) else JsNaN
    else
      var negative := t[0] == '-';
      var unsigned := if t[0] in {'+', '-'} then t[1..] else t;
      if unsigned == "Infinity" then JsInfinity(negative)
      else match UnsignedDecimal(unsigned)
        case JsNumber(n) => JsNumber(if negative then -n else n)
        case other => other
  }

  /**
   * `Number(v)`. Arrays and other objects are read as NaN: JavaScript reads
   * them through their string form, which this model does not build.
   */
  function ToNumber(v: JsValue): (r: JsValue)
    ensures r.JsNumber? || r.JsNaN? || r.JsInfinity?
  {
    match v
    case Undefined => JsNaN
    case Null => JsNumber(0.0)
    case JsBool(b) => JsNumber(if b then 1.0 else 0.0)
    case JsNumber(_) => v
    case JsNaN => v
    case JsInfinity(_) => v
    case JsString(s) => StringToNumber(s)
    case JsDate(t) => JsNumber(t as real)
    case JsInvalidDate => JsNaN
    case JsArray(_) => JsNaN
    case JsObject(_) => JsNaN
  }

  /** The decimal digits of a natural number, as `String(n)` prints it. */
  function DecimalString(n: nat): (s: string)
    ensures s != [] && AllDigitsIn(s, 10)
    ensures n > 0 ==> s[0] != '0'
  {
    if n < 10 then ['0' + n as char] else DecimalString(n / 10) + ['0' + (n % 10) as char]
  }

  lemma {:induction false} DecimalStringValue(n: nat)
    ensures DigitsValue(DecimalString(n), 10) == n
  {
    var s := DecimalString(n);
    if n >= 10 {
      DecimalStringValue(n / 10);
      assert s[..|s| - 1] == DecimalString(n / 10);
    }
  }

  /** A string of decimal digits is a decimal literal denoting its digits' value. */
  lemma UnsignedDecimalOfDigits(s: string)
    requires s != [] && AllDigitsIn(s, 10)
    ensures UnsignedDecimal(s) == JsNumber(DigitsValue(s, 10) as real)
  {
    forall i | 0 <= i < |s| ensures s[i] !in {'e', 'E'} && s[i] != '.' {
      assert 0 <= DigitValue(s[i]) < 10;
    }
    FindAbsent(s, {'e', 'E'});
    FindAbsent(s, {'.'});
    assert s[..|s|] == s;
    assert Pow10(0) == 1;
    assert DigitsValue("", 10) == 0;
  }

  /** `Number` of a string of decimal digits, without leading white space or sign, is its value. */
  lemma StringToNumberOfDigits(s: string)
    requires s != [] && AllDigitsIn(s, 10)
    requires |s| >= 2 ==> s[0] != '0'
    ensures StringToNumber(s) == JsNumber(DigitsValue(s, 10) as real)
  {
    assert 0 <= DigitValue(s[0]) < 10 && 0 <= DigitValue(s[|s| - 1]) < 10;
    assert Trimmed(s);
    TrimOfTrimmed(s);
    assert s != "Infinity" by { assert "Infinity"[0] == 'I'; }
    UnsignedDecimalOfDigits(s);
  }

  /** Reading back the decimal form of a natural number gives the number. */
  lemma DecimalRoundTrip(n: nat)
    ensures StringToNumber(DecimalString(n)) == JsNumber(n as real)
  {
    StringToNumberOfDigits(DecimalString(n));
    DecimalStringValue(n);
  }

  /** The empty string and white space coerce to 0. */
  lemma BlankIsZero(s: string)
    requires AllWhiteSpace(s)
    ensures ToNumber(JsString(s)) == JsNumber(0.0)
  {
    TrimEmpty(s);
  }

  /** Text that is no numeral coerces to NaN. */
  lemma WordIsNaN()
    ensures ToNumber(JsString("abc")) == JsNaN
  {
    assert Trimmed("abc");
    TrimOfTrimmed("abc");
    assert Find("abc", {'e', 'E'}) == 3;
    assert "abc"[..3] == "abc";
    assert DigitValue('a') == 10;
  }

  /** A decimal fraction keeps its fractional part: there is no rounding to an integer. */
  lemma FractionKept()
    ensures ToNumber(JsString("2.5")) == JsNumber(2.5)
  {
    assert Trimmed("2.5");
    TrimOfTrimmed("2.5");
    assert Find("2.5", {'e', 'E'}) == 3;
    assert "2.5"[..3] == "2.5";
    assert Find("2.5", {'.'}) == 1;
    assert "2.5"[..1] == "2" && "2.5"[2..] == "5";
    assert DigitsValue("2", 10) == 2 && DigitsValue("5", 10) == 5;
  }
}
