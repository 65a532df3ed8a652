/** The dynamically typed values that the course-information form holds and
    the numeric coercion `Number(...)` applied to them before a save. */
module JsValues {
  import opened Options
  import opened JsStrings

  /** The JavaScript values a field of the form can hold. Objects and arrays
      are not among them (the server sends strings, numbers and null for these
      columns, and the inputs produce strings). */
  datatype JsValue = Undefined | Null | Boolean(b: bool) | Number(x: real) | NaN | Str(s: string)

  /** JavaScript truthiness, which `a || b` tests. */
  predicate Truthy(v: JsValue) {
    match v
    case Undefined => false
    case Null => false
    case Boolean(b) => b
    case Number(x) => x != 0.0
    case NaN => false
    case Str(s) => s != ""
  }

  /** `v != null` is false exactly for null and undefined. */
  predicate IsNullish(v: JsValue) {
    v.Undefined? || v.Null?
  }

  /** `a || b`. */
  function Or(a: JsValue, b: JsValue): (r: JsValue)
    ensures Truthy(a) ==> r == a
    ensures !Truthy(a) ==> r == b
  {
    if Truthy(a) then a else b
  }

  predicate IsDigit(c: char) {
    '0' <= c <= '9'
  }

  predicate AllDigits(s: string) {
    forall i :: 0 <= i < |s| ==> IsDigit(s[i])
  }

  function DigitValue(c: char): (r: nat)
    requires IsDigit(c)
    ensures r < 10
  {
    c as int - '0' as int
  }

  function DigitChar(d: nat): (c: char)
    requires d < 10
    ensures IsDigit(c) && DigitValue(c) == d
  {
    ('0' as int + d) as char
  }

  /** The value of a string of decimal digits, most significant first. */
  function DigitsValue(s: string): nat
    requires AllDigits(s)
  {
    if s == [] then 0 else DigitsValue(s[..|s| - 1]) * 10 + DigitValue(s[|s| - 1])
  }

  function Pow10(k: nat): (r: nat)
    ensures r >= 1
  {
    if k == 0 then 1 else 10 * Pow10(k - 1)
  }

  /** An unsigned decimal literal `ddd`, `ddd.`, `ddd.ddd` or `.ddd` (at
      least one digit). */
  function ParseUnsignedDecimal(t: string): (r: Option<real>)
    ensures r.Some? ==> r.value >= 0.0
  {
    var whole := BeforeFirst(t, '.');
    if |whole| == |t| then
      if t != [] && AllDigits(t) then Some(DigitsValue(t) as real) else None
    else
      var frac := t[|whole| + 1..];
      if AllDigits(whole) && AllDigits(frac) && (whole != [] || frac != []) then
        Some(DigitsValue(whole) as real + DigitsValue(frac) as real / Pow10(|frac|) as real)
      else None
  }

  /** The index of the first 'e' or 'E' of `t`, or `|t|` when it has none. */
  function ExponentMark(t: string): (i: nat)
    ensures i <= |t|
    ensures i < |t| ==> t[i] == 'e' || t[i] == 'E'
  {
    if t == [] || t[0] == 'e' || t[0] == 'E' then 0 else 1 + ExponentMark(t[1..])
  }

  /** An exponent `ddd`, `+ddd` or `-ddd`. */
  function ParseExponent(t: string): (r: Option<int>)
    ensures r.Some? ==> t != [] && (r.value < 0 ==> t[0] == '-')
  {
    var digits := if t != [] && (t[0] == '+' || t[0] == '-') then t[1..] else t;
    if digits != [] && AllDigits(digits) then
      Some(if t[0] == '-' then -(DigitsValue(digits) as int) else DigitsValue(digits))
    else None
  }

  /** `x` times ten to the power `e`. */
  function Scale(x: real, e: int): (r: real)
    ensures x >= 0.0 ==> r >= 0.0
    ensures e == 0 ==> r == x
  {
    if e >= 0 then x * Pow10(e) as real else x / Pow10(-e) as real
  }

  /** An unsigned decimal literal optionally followed by an exponent part
      (`1e2`, `2.5E-1`, `.5e+3`). */
  function ParseUnsignedLiteral(t: string): (r: Option<real>)
    ensures r.Some? ==> r.value >= 0.0
    ensures ExponentMark(t) == |t| ==> r == ParseUnsignedDecimal(t)
  {
    var m := ExponentMark(t);
    assert m == |t| ==> t[..m] == t;
    match ParseUnsignedDecimal(t[..m])
    case None => None
    case Some(x) =>
      if m == |t| then Some(x)
      else
        match ParseExponent(t[m + 1..])
        case None => None
        case Some(e) => Some(Scale(x, e))
  }

  /** A literal parses when its mantissa and its exponent, if any, do. */
  lemma UnsignedLiteralParses(t: string)
    requires ParseUnsignedDecimal(t[..ExponentMark(t)]).Some?
    requires ExponentMark(t) == |t| || ParseExponent(t[ExponentMark(t) + 1..]).Some?
    ensures ParseUnsignedLiteral(t).Some?
  {
  }

  /** StringToNumber on decimal strings: surrounding whitespace is ignored, an
      empty string is 0, an optional sign precedes a decimal literal with an
      optional exponent, and anything else is NaN. */
  function StringToNumber(s: string): (r: JsValue)
    ensures r.Number? || r.NaN?
    ensures IsBlank(s) ==> r == Number(0.0)
  {
    var t := Trim(s);
    TrimEmptyIffBlank(s);
    if t == [] then Number(0.0)
    else
      var negative := t[0] == '-';
      var body := if t[0] == '-' || t[0] == '+' then t[1..] else t;
      match ParseUnsignedLiteral(body)
      case None => NaN
      case Some(x) => Number(if negative then -x else x)
  }

  /** An untrimmed literal whose unsigned part parses is read as a number. */
  lemma SignedLiteralIsRead(s: string, x: real)
    requires s != [] && !IsJsWhitespace(s[0]) && !IsJsWhitespace(s[|s| - 1])
    requires ParseUnsignedLiteral(if s[0] == '-' || s[0] == '+' then s[1..] else s) == Some(x)
    ensures StringToNumber(s) == Number(if s[0] == '-' then -x else x)
  {
    TrimUnpadded(s);
    assert Trim(s) != [] && Trim(s)[0] == s[0];
  }

  /** Exponent notation, as a number input accepts it. */
  lemma ExponentExamples()
    ensures StringToNumber("1e2") == Number(100.0)
  {
    ExponentLiteralParses();
    SignedLiteralIsRead("1e2", 100.0);
  }

  lemma ExponentLiteralParses()
    ensures ParseUnsignedLiteral("1e2") == Some(100.0)
  {
    assert ExponentMark("1e2") == 1;
    assert ParseUnsignedDecimal("1") == Some(1.0) by {
      BeforeFirstWithoutSeparator("1", '.');
    }
    assert "1e2"[2..] == "2";
  }

  /** A negative exponent divides. */
  lemma NegativeExponentExample()
    ensures StringToNumber("25E-1") == Number(2.5)
  {
    NegativeExponentLiteralParses();
    SignedLiteralIsRead("25E-1", 2.5);
  }

  lemma NegativeExponentLiteralParses()
    ensures ParseUnsignedLiteral("25E-1") == Some(2.5)
  {
    assert ExponentMark("25E-1") == 2;
    assert ParseUnsignedDecimal("25") == Some(25.0) by {
      BeforeFirstWithoutSeparator("25", '.');
      assert DigitsValue("25") == 25 by { assert "25"[..1] == "2"; }
    }
    assert "25E-1"[..2] == "25";
    assert "25E-1"[3..] == "-1";
    assert "-1"[1..] == "1";
    assert ParseExponent("-1") == Some(-1);
    assert Pow10(1) == 10;
    assert Scale(25.0, -1) == 2.5;
  }

  /** `Number(v)`. */
  function ToNumber(v: JsValue): (r: JsValue)
    ensures r.Number? || r.NaN?
    ensures v.Number? ==> r == v
    ensures IsNullish(v) ==> (r == Number(0.0) <==> v.Null?)
  {
    match v
    case Undefined => NaN
    case Null => Number(0.0)
    case Boolean(b) => Number(if b then 1.0 else 0.0)
    case Number(x) => v
    case NaN => NaN
    case Str(s) => StringToNumber(s)
  }

  /** The decimal representation of a natural number, as a number input or
      the subtitle-status select would produce it. */
  function NatToString(n: nat): (s: string)
    ensures s != [] && AllDigits(s)
  {
    if n < 10 then [DigitChar(n)] else NatToString(n / 10) + [DigitChar(n % 10)]
  }

  lemma {:induction false} NatToStringValue(n: nat)
    ensures DigitsValue(NatToString(n)) == n
  {
    var s := NatToString(n);
    if n >= 10 {
      NatToStringValue(n / 10);
      assert s[..|s| - 1] == NatToString(n / 10);
    }
  }

  /** A form field edited to the digits of `n` is sent as the number `n`. */
  lemma NumberOfDigitString(n: nat)
    ensures ToNumber(Str(NatToString(n))) == Number(n as real)
  {
    NatToStringValue(n);
    DigitStringIsRead(NatToString(n));
  }

  /** A non-empty string of digits is read as its value. */
  lemma DigitStringIsRead(s: string)
    requires s != [] && AllDigits(s)
    ensures StringToNumber(s) == Number(DigitsValue(s) as real)
  {
    DigitStringParses(s);
    SignedLiteralIsRead(s, DigitsValue(s) as real);
  }

  lemma DigitStringParses(s: string)
    requires s != [] && AllDigits(s)
    ensures ParseUnsignedLiteral(s) == Some(DigitsValue(s) as real)
  {
    assert ExponentMark(s) == |s|;
    assert forall i :: 0 <= i < |s| ==> s[i] != '.';
    BeforeFirstWithoutSeparator(s, '.');
  }

  /** Coercing twice changes nothing more than coercing once. */
  lemma ToNumberIdempotent(v: JsValue)
    ensures ToNumber(ToNumber(v)) == ToNumber(v)
  {
  }
}
