/**
 * Spreadsheet cells as the data frame hands them over, Python's `str()` of
 * each, and the two-decimal number format used for percentages.
 */
module Cells {
  import opened Wrappers
  import opened Text

  /** One cell value of a data-frame row. */
  datatype Cell =
    | NoneValue              // Python's None
    | NaN                    // the float pandas stores for an empty cell
    | Str(s: string)
    | Int(i: int)
    | Real(hundredths: int)  // a float with at most two decimals, in hundredths

  /** Two digits of a value below 100, leading zero kept. */
  function TwoDigits(n: nat): (r: string)
    requires n < 100
    ensures |r| == 2 && AllDigits(r) && DigitsValue(r) == n
  {
    var r := [DigitChar(n / 10), DigitChar(n % 10)];
    assert r[..1] == [DigitChar(n / 10)];
    assert DigitsValue(r[..1]) == n / 10 by {
      assert r[..1][..0] == [];
    }
    r
  }

  function Abs(i: int): nat {
    if i < 0 then -i else i
  }

  function Sign(i: int): string {
    if i < 0 then "-" else ""
  }

  /** Python's `repr` of a float with at most two decimals (below 1e16 in magnitude). */
  function FloatRepr(h: int): string {
    var a := Abs(h);
    var frac :=
      if a % 100 == 0 then "0"
      else if a % 10 == 0 then [DigitChar(a % 100 / 10)]
      else TwoDigits(a % 100);
    Sign(h) + NatToString(a / 100) + "." + frac
  }

  /** Python's `str()` of a cell value. */
  function PyStr(c: Cell): string {
    match c
    case NoneValue => "None"
    case NaN => "nan"
    case Str(s) => s
    case Int(i) => IntToString(i)
    case Real(h) => FloatRepr(h)
  }

  /** Two-decimal text of a non-negative value given in hundredths. */
  function UnsignedFixed2(a: nat): (r: string)
    ensures |r| >= 4 && r[|r| - 3] == '.'
    ensures IsDigit(r[0]) && IsDigit(r[|r| - 1])
  {
    NatToString(a / 100) + "." + TwoDigits(a % 100)
  }

  /** `f"{x:.2f}"` of a float given by its sign and its magnitude in hundredths; a negative zero keeps its `-`. */
  function Fixed2(negative: bool, a: nat): (r: string)
    ensures |r| >= 4 && r[|r| - 3] == '.'
    ensures negative <==> r[0] == '-'
  {
    (if negative then "-" else "") + UnsignedFixed2(a)
  }

  /** Value in hundredths of the digits after a decimal point (at most two of them). */
  function FractionValue(frac: string): nat
    requires AllDigits(frac) && |frac| <= 2
  {
    if |frac| == 0 then 0
    else if |frac| == 1 then DigitValue(frac[0]) * 10
    else DigitsValue(frac)
  }

  /** Unsigned fixed-point text: digits, then optionally a point and at most two digits. */
  function ParseUnsigned(body: string): Option<nat> {
    var parts := Split(body, '.');
    if |parts| > 2 then None
    else
      var whole := parts[0];
      var frac := if |parts| == 2 then parts[1] else [];
      if !AllDigits(whole) || !AllDigits(frac) || |frac| > 2 || (whole == [] && frac == []) then None
      else Some(DigitsValue(whole) * 100 + FractionValue(frac))
  }

  /** "nan" in any mix of cases. */
  predicate IsNanText(t: string) {
    |t| == 3 && LowerChar(t[0]) == 'n' && LowerChar(t[1]) == 'a' && LowerChar(t[2]) == 'n'
  }

  /**
   * A float: NaN, or finite with its sign and its magnitude in hundredths.
   * The sign is kept apart so that `-0.0` stays distinct from `0.0`.
   */
  datatype FloatValue = Finite(negative: bool, hundredths: nat) | FloatNaN

  /**
   * `float(s)` for text: surrounding blanks are ignored, a sign may lead, and
   * the rest is fixed-point with at most two decimals, or "nan" in any case.
   */
  function ParseFloat(s: string): Option<FloatValue> {
    ParseSigned(Strip(s))
  }

  /** Stripped float text: a leading sign, if any, then the unsigned part. */
  function ParseSigned(t: string): Option<FloatValue> {
    var neg := t != [] && t[0] == '-';
    var body := if t != [] && (t[0] == '-' || t[0] == '+') then t[1..] else t;
    if IsNanText(body) then Some(FloatNaN)
    else
      match ParseUnsigned(body)
      case None => None
      case Some(v) => Some(Finite(neg, v))
  }

  /** `float(x)` of a cell: `None` where Python raises (None, or text that is not a number). */
  function ToFloat(c: Cell): Option<FloatValue> {
    match c
    case NoneValue => None
    case NaN => Some(FloatNaN)
    case Str(s) => ParseFloat(s)
    case Int(i) => Some(Finite(i < 0, Abs(i) * 100))
    case Real(h) => Some(Finite(h < 0, Abs(h)))
  }

  /** The percentage text `f"{float(x):.2f}%"`, or `None` where `float` raises. */
  function Percentage(c: Cell): (r: Option<string>)
    ensures r.Some? <==> ToFloat(c).Some?
    ensures ToFloat(c) == Some(FloatNaN) ==> r == Some("nan%")
    ensures forall neg, a :: ToFloat(c) == Some(Finite(neg, a)) ==> r == Some(Fixed2(neg, a) + "%")
  {
    match ToFloat(c)
    case None => None
    case Some(FloatNaN) => Some("nan%")
    case Some(Finite(neg, a)) => Some(Fixed2(neg, a) + "%")
  }

  lemma {:induction false} SplitWithoutSeparator(s: string, sep: char)
    requires sep !in s
    ensures Split(s, sep) == [s]
  {
    var parts := Split(s, sep);
    assert |parts| == 1;
  }

  lemma {:induction false} SplitAtSeparator(a: string, sep: char, b: string)
    requires sep !in a && sep !in b
    ensures Split(a + [sep] + b, sep) == [a, b]
    decreases |a|
  {
    var s := a + [sep] + b;
    if a == [] {
      assert s[1..] == b;
      SplitWithoutSeparator(b, sep);
    } else {
      assert s[1..] == a[1..] + [sep] + b;
      SplitAtSeparator(a[1..], sep, b);
      var rest := Split(s[1..], sep);
      assert s[0] == a[0] != sep;
      assert Split(s, sep) == [[s[0]] + rest[0]] + rest[1..];
      assert [s[0]] + rest[0] == a;
    }
  }

  lemma NotDigitNoPoint(s: string)
    requires AllDigits(s)
    ensures '.' !in s && '-' !in s
  {
    assert forall i :: 0 <= i < |s| ==> s[i] != '.' && s[i] != '-';
  }

  lemma UnsignedRoundTrip(a: nat)
    ensures ParseUnsigned(UnsignedFixed2(a)) == Some(a)
  {
    var w := NatToString(a / 100);
    var f := TwoDigits(a % 100);
    NotDigitNoPoint(w);
    NotDigitNoPoint(f);
    SplitAtSeparator(w, '.', f);
    assert w + "." + f == w + ['.'] + f;
  }

  lemma StripKeepsTrimmed(s: string)
    requires s != [] && !IsSpace(s[0]) && !IsSpace(s[|s| - 1])
    ensures Strip(s) == s
  {
  }

  /** A minus sign makes the unsigned value that follows it negative, zero included; without a sign it stays positive. */
  lemma ParseSignedOf(neg: bool, body: string)
    requires body != [] && body[0] != '-' && body[0] != '+'
    requires !IsNanText(body) && ParseUnsigned(body).Some?
    ensures ParseSigned((if neg then "-" else "") + body) == Some(Finite(neg, ParseUnsigned(body).value))
  {
    var t := (if neg then "-" else "") + body;
    if neg {
      assert t[0] == '-' && t[1..] == body;
    } else {
      assert t == body;
    }
  }

  lemma ParseFloatOfSigned(neg: bool, body: string)
    requires |body| >= 4 && IsDigit(body[0]) && IsDigit(body[|body| - 1])
    requires ParseUnsigned(body).Some?
    ensures ParseFloat((if neg then "-" else "") + body) == Some(Finite(neg, ParseUnsigned(body).value))
  {
    var s := (if neg then "-" else "") + body;
    calc {
      ParseFloat(s);
    == { StripSigned(neg, body); ParseFloatOfStripped(s); }
      ParseSigned(s);
    == { ParseSignedOf(neg, body); }
      Some(Finite(neg, ParseUnsigned(body).value));
    }
  }

  /** A signed numeral that begins and ends with a digit has no blanks to strip. */
  lemma StripSigned(neg: bool, body: string)
    requires body != [] && IsDigit(body[0]) && IsDigit(body[|body| - 1])
    ensures var s := (if neg then "-" else "") + body; Strip(s) == s
  {
    var s := (if neg then "-" else "") + body;
    assert s[|s| - 1] == body[|body| - 1];
    assert !IsSpace(s[0]) && !IsSpace(s[|s| - 1]);
    StripKeepsTrimmed(s);
  }

  /** Text without surrounding blanks is read by its sign and unsigned part alone. */
  lemma ParseFloatOfStripped(s: string)
    requires Strip(s) == s
    ensures ParseFloat(s) == ParseSigned(s)
  {
  }

  /** Reading back a two-decimal rendering gives the value that was rendered. */
  lemma ParseFloatOfFixed2(negative: bool, a: nat)
    ensures ParseFloat(Fixed2(negative, a)) == Some(Finite(negative, a))
  {
    UnsignedRoundTrip(a);
    ParseFloatOfSigned(negative, UnsignedFixed2(a));
  }

  /** `-0` is a negative zero for `float()`, and its percentage keeps the sign. */
  lemma NegativeZeroPercentage()
    ensures ParseFloat("-0") == Some(Finite(true, 0))
    ensures Percentage(Str("-0")) == Some("-0.00%")
  {
    StripKeepsTrimmed("-0");
    assert "-0"[1..] == "0";
    SplitWithoutSeparator("0", '.');
    assert DigitsValue("0") == 0 by { assert "0"[..0] == []; }
    assert ParseUnsigned("0") == Some(0);
    assert Fixed2(true, 0) + "%" == "-0.00%";
  }
}
