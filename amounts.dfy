/** Exact decimal amounts: `parse_amount` of the CSV importer and the text
    `str()` gives a two-place amount read back from the store. */
module Amounts {
  import opened Text

  /** The exact number `coefficient / 10^places`, as Python's `Decimal` holds it. */
  datatype Decimal = Decimal(coefficient: int, places: nat)

  function Value(d: Decimal): real {
    d.coefficient as real / Pow10(d.places) as real
  }

  /** `amt > 0`: the sign test the importer uses for defaults and the category type. */
  predicate IsPositive(d: Decimal) {
    d.coefficient > 0
  }

  /** The sign test on the coefficient is the sign test on the value. */
  lemma PositiveMeansValuePositive(d: Decimal)
    ensures IsPositive(d) <==> Value(d) > 0.0
  {
  }

  /** Position of the first `c` in `s`. */
  function IndexOf(s: string, c: char): (r: Option<nat>)
    ensures r.Some? ==> r.value < |s| && s[r.value] == c && c !in s[..r.value]
    ensures r.None? ==> c !in s
  {
    if s == [] then None
    else if s[0] == c then Some(0)
    else match IndexOf(s[1..], c)
      case None => None
      case Some(k) =>
        assert s[..k + 1] == [s[0]] + s[1..][..k];
        Some(k + 1)
  }

  /** An unsigned decimal literal: digits, optionally a point and more digits,
      with at least one digit in all (`"12"`, `"12."`, `".5"`, `"12.50"`). */
  function ParseUnsigned(body: string): (r: Option<Decimal>)
    ensures r.Some? ==> r.value.coefficient >= 0
  {
    match IndexOf(body, '.')
    case None =>
      if body != [] && AllDigits(body) then Some(Decimal(DigitsValue(body), 0)) else None
    case Some(k) =>
      var whole, frac := body[..k], body[k + 1..];
      if AllDigits(whole) && AllDigits(frac) && |whole| + |frac| > 0
      then
        DigitsValueAppend(whole, frac);
        Some(Decimal(DigitsValue(whole + frac), |frac|))
      else None
  }

  /** `Decimal(t)` for a string: surrounding whitespace is ignored, then an
      optional sign and an unsigned literal. `None` where Python raises
      `InvalidOperation`. */
  function ParseDecimal(t: string): (r: Option<Decimal>)
    ensures r.Some? ==> Strip(t) != []
  {
    ParseDecimalText(Strip(t))
  }

  /** The sign and unsigned literal `Decimal` reads once the whitespace is stripped. */
  function ParseDecimalText(u: string): (r: Option<Decimal>)
    ensures r.Some? ==> u != []
  {
    if u == [] then None
    else
      var signed := u[0] == '-' || u[0] == '+';
      match ParseUnsigned(if signed then u[1..] else u)
      case None => None
      case Some(d) => Some(if u[0] == '-' then Decimal(-d.coefficient, d.places) else d)
  }

  /** `parse_amount(s)`: strip, drop every comma, then `Decimal`. `None` where
      the source raises `ValueError("Invalid amount ...")`. */
  function ParseAmount(s: string): (r: Option<Decimal>)
    ensures r.Some? ==> RemoveCommas(Strip(s)) != []
  {
    ParseDecimal(RemoveCommas(Strip(s)))
  }

  function Abs(x: int): nat {
    if x < 0 then -x else x
  }

  /** `str(amount)` for an amount stored with two decimal places, given in cents:
      an optional `-`, then the magnitude's text. */
  function FormatCents(cents: int): string {
    (if cents < 0 then "-" else "") + CentsText(Abs(cents))
  }

  /** The whole units, a point and exactly two digits of cents. */
  function CentsText(n: nat): string {
    assert Pow10(2) == 100;
    PadDigitsFits(n % 100, 2);
    NatDigits(n / 100) + "." + PadDigits(n % 100, 2)
  }

  /** A literal made of digits, a point and more digits reads as its digits
      scaled by the number of places after the point. */
  lemma ParseUnsignedPoint(whole: string, frac: string)
    requires AllDigits(whole) && AllDigits(frac) && |whole| + |frac| > 0
    ensures AllDigits(whole + frac)
    ensures ParseUnsigned(whole + "." + frac) == Some(Decimal(DigitsValue(whole + frac), |frac|))
  {
    var body := whole + "." + frac;
    assert body[..|whole|] == whole && body[|whole|] == '.' && body[|whole| + 1..] == frac;
    assert '.' !in whole by {
      assert forall i :: 0 <= i < |whole| ==> IsDigit(whole[i]);
    }
    IndexOfFirst(body, '.', |whole|);
    DigitsValueAppend(whole, frac);
  }

  /** A literal without a point reads as its digits, with no places. */
  lemma ParseUnsignedDigits(w: string)
    requires w != [] && AllDigits(w)
    ensures ParseUnsigned(w) == Some(Decimal(DigitsValue(w), 0))
  {
    assert '.' !in w by {
      assert forall i :: 0 <= i < |w| ==> IsDigit(w[i]);
    }
  }

  /** `ParseUnsigned` accepts nothing else: a literal it reads is a digit string,
      or digits, a point and digits with at least one digit in all. */
  lemma ParseUnsignedForm(body: string)
    requires ParseUnsigned(body).Some?
    ensures (body != [] && AllDigits(body))
      || exists whole, frac :: AllDigits(whole) && AllDigits(frac) && |whole| + |frac| > 0
           && body == whole + "." + frac
  {
    match IndexOf(body, '.')
    case None =>
    case Some(k) =>
      var whole, frac := body[..k], body[k + 1..];
      assert body == whole + "." + frac;
  }

  /** `Decimal` of an optional sign before an unsigned literal: the literal's
      value, negated for `-`. */
  lemma ParseDecimalTextSigned(sign: string, body: string)
    requires IsSign(sign) && body != [] && (IsDigit(body[0]) || body[0] == '.')
    ensures ParseDecimalText(sign + body) == match ParseUnsigned(body)
        case None => None
        case Some(d) => Some(if sign == "-" then Decimal(-d.coefficient, d.places) else d)
  {
    var t := sign + body;
    if sign == "-" {
      assert t[0] == '-' && t[1..] == body;
    } else if sign == "+" {
      assert t[0] == '+' && t[1..] == body;
    } else {
      assert t == body;
    }
  }

  /** `Decimal(t)` ignores surrounding whitespace and reads an optional sign,
      `+` or `-`, before an unsigned literal, which may start with its point. */
  lemma ParseDecimalPadded(a: string, sign: string, body: string, b: string)
    requires AllSpace(a) && AllSpace(b) && IsSign(sign)
    requires body != [] && (IsDigit(body[0]) || body[0] == '.') && !IsSpace(body[|body| - 1])
    ensures ParseDecimal(a + sign + body + b) == match ParseUnsigned(body)
        case None => None
        case Some(d) => Some(if sign == "-" then Decimal(-d.coefficient, d.places) else d)
  {
    var t := sign + body;
    assert t[|t| - 1] == body[|body| - 1];
    if sign == "" {
      assert t == body;
    } else {
      assert t[0] == sign[0];
    }
    assert a + sign + body + b == a + t + b;
    StripPadded(a, t, b);
    ParseDecimalTextSigned(sign, body);
  }

  /** `Decimal` accepts nothing else: once stripped, what it reads is an optional
      sign before a literal `ParseUnsigned` reads. */
  lemma ParseDecimalOnly(t: string)
    requires ParseDecimal(t).Some?
    ensures exists sign, body :: IsSign(sign) && ParseUnsigned(body).Some? && Strip(t) == sign + body
  {
    ParseDecimalTextOnly(Strip(t));
  }

  lemma ParseDecimalTextOnly(u: string)
    requires ParseDecimalText(u).Some?
    ensures exists sign, body :: IsSign(sign) && ParseUnsigned(body).Some? && u == sign + body
  {
    if u[0] == '-' || u[0] == '+' {
      var sign, body := u[..1], u[1..];
      assert ParseUnsigned(body).Some?;
      assert IsSign(sign) && u == sign + body;
    } else {
      assert ParseUnsigned(u).Some?;
      assert IsSign("") && u == "" + u;
    }
  }

  /** `parse_amount` ignores whitespace around the text. */
  lemma ParseAmountPadded(a: string, t: string, b: string)
    requires AllSpace(a) && AllSpace(b) && Unspaced(t)
    ensures ParseAmount(a + t + b) == ParseAmount(t)
  {
    StripPadded(a, t, b);
    StripUnspaced(t);
  }

  /** `parse_amount` of an optionally signed integer, with any surrounding
      whitespace, is that integer with no places. */
  lemma ParseAmountInteger(a: string, sign: string, d: string, b: string)
    requires AllSpace(a) && AllSpace(b) && IsSign(sign) && d != [] && AllDigits(d)
    ensures ParseAmount(a + sign + d + b)
      == Some(Decimal(if sign == "-" then -(DigitsValue(d) as int) else DigitsValue(d), 0))
  {
    assert a + sign + d + b == a + (sign + d) + b;
    SignedDigitsAmount(sign, d);
    ParseAmountPadded(a, sign + d, b);
    ParseIntegerText(sign, d);
  }

  /** An optionally signed digit string has no whitespace at its ends and no
      comma, so `parse_amount` reads it with `Decimal` alone. */
  lemma SignedDigitsAmount(sign: string, d: string)
    requires IsSign(sign) && d != [] && AllDigits(d)
    ensures Unspaced(sign + d)
    ensures ParseAmount(sign + d) == ParseDecimalText(sign + d)
  {
    var t := sign + d;
    assert t[|t| - 1] == d[|d| - 1] && IsDigit(d[0]);
    if sign == "" {
      assert t == d;
    } else {
      assert t[0] == sign[0];
    }
    assert ',' !in t by {
      assert forall i :: 0 <= i < |t| ==> t[i] == '+' || t[i] == '-' || IsDigit(t[i]);
    }
    ParseAmountPlain(t);
  }

  lemma ParseIntegerText(sign: string, d: string)
    requires IsSign(sign) && d != [] && AllDigits(d)
    ensures ParseDecimalText(sign + d)
      == Some(Decimal(if sign == "-" then -(DigitsValue(d) as int) else DigitsValue(d), 0))
  {
    assert IsDigit(d[0]);
    ParseDecimalTextSigned(sign, d);
    ParseUnsignedDigits(d);
  }

  /** An unspaced, comma-free text is parsed by `Decimal` alone. */
  lemma ParseAmountPlain(s: string)
    requires s != [] && !IsSpace(s[0]) && !IsSpace(s[|s| - 1]) && ',' !in s
    ensures ParseAmount(s) == ParseDecimal(s) && Strip(s) == s
  {
    StripUnspaced(s);
    RemoveCommasNone(s);
  }

  /** A sign (or none) before an unsigned literal that starts with a digit. */
  lemma ParseDecimalSigned(neg: bool, body: string)
    requires body != [] && IsDigit(body[0]) && !IsSpace(body[|body| - 1])
    ensures var t := (if neg then "-" else "") + body;
      ParseDecimal(t) == match ParseUnsigned(body)
        case None => None
        case Some(d) => Some(if neg then Decimal(-d.coefficient, d.places) else d)
  {
    if neg {
      ParseDecimalNegative(body);
    } else {
      assert "" + body == body;
      ParseDecimalUnsigned(body);
    }
  }

  lemma ParseDecimalUnsigned(body: string)
    requires body != [] && IsDigit(body[0]) && !IsSpace(body[|body| - 1])
    ensures ParseDecimal(body) == ParseUnsigned(body)
  {
    StripUnspaced(body);
  }

  lemma ParseDecimalNegative(body: string)
    requires body != [] && IsDigit(body[0]) && !IsSpace(body[|body| - 1])
    ensures ParseDecimal("-" + body) == match ParseUnsigned(body)
        case None => None
        case Some(d) => Some(Decimal(-d.coefficient, d.places))
  {
    var t := "-" + body;
    assert t[|t| - 1] == body[|body| - 1];
    StripUnspaced(t);
    assert t[0] == '-' && t[1..] == body;
  }

  /** The units and cents digits of an amount's text denote its magnitude. */
  lemma CentsDigits(n: nat)
    ensures var whole, frac := NatDigits(n / 100), PadDigits(n % 100, 2);
      |frac| == 2 && AllDigits(whole + frac) && DigitsValue(whole + frac) == n
  {
    assert Pow10(2) == 100;
    PadDigitsFits(n % 100, 2);
    var whole, frac := NatDigits(n / 100), PadDigits(n % 100, 2);
    NatDigitsValue(n / 100);
    DigitsValueAppend(whole, frac);
  }

  /** The magnitude's text is an unsigned literal for the magnitude in cents,
      starting with a digit and ending with one. */
  lemma ParseCentsText(n: nat)
    ensures var t := CentsText(n);
      t != [] && IsDigit(t[0]) && IsDigit(t[|t| - 1]) && ParseUnsigned(t) == Some(Decimal(n, 2))
  {
    var whole, frac := NatDigits(n / 100), PadDigits(n % 100, 2);
    CentsDigits(n);
    ParseUnsignedPoint(whole, frac);
    var t := CentsText(n);
    assert t[0] == whole[0] && t[|t| - 1] == frac[1];
  }

  /** The export's amount text is a sign (or none) before the magnitude's text,
      with no comma and no surrounding space. */
  lemma FormatCentsShape(cents: int)
    ensures var s := FormatCents(cents);
      s != [] && !IsSpace(s[0]) && !IsSpace(s[|s| - 1]) && ',' !in s
  {
    var whole, frac := NatDigits(Abs(cents) / 100), PadDigits(Abs(cents) % 100, 2);
    CentsDigits(Abs(cents));
    var s := FormatCents(cents);
    assert forall i :: 0 <= i < |s| ==> s[i] == '-' || s[i] == '.' || IsDigit(s[i]);
    assert s[|s| - 1] == frac[1];
  }

  /** `parse_amount` reads back exactly the amount whose text the export writes. */
  lemma ParseFormatCents(cents: int)
    ensures ParseAmount(FormatCents(cents)) == Some(Decimal(cents, 2))
  {
    var body := CentsText(Abs(cents));
    FormatCentsShape(cents);
    ParseAmountPlain(FormatCents(cents));
    ParseCentsText(Abs(cents));
    ParseDecimalSigned(cents < 0, body);
  }

  lemma {:induction false} IndexOfFirst(s: string, c: char, k: nat)
    requires k < |s| && s[k] == c && c !in s[..k]
    ensures IndexOf(s, c) == Some(k)
  {
    if k > 0 {
      assert s[0] == s[..k][0];
      assert s[1..][..k - 1] == s[..k][1..];
      IndexOfFirst(s[1..], c, k - 1);
    }
  }

  lemma ExampleDigits()
    ensures AllDigits("123456") && DigitsValue("123456") == 123456
  {
    assert DigitsValue("12") == 12;
    assert DigitsValue("123") == 123 by { assert "123"[..2] == "12"; }
    assert DigitsValue("1234") == 1234 by { assert "1234"[..3] == "123"; }
    assert DigitsValue("12345") == 12345 by { assert "12345"[..4] == "1234"; }
    assert DigitsValue("123456") == 123456 by { assert "123456"[..5] == "12345"; }
  }

  lemma ExampleCommas()
    ensures Strip("1,234.56") == "1,234.56" && RemoveCommas("1,234.56") == "1234.56"
  {
    StripUnspaced("1,234.56");
    ExampleRemoveCommas();
  }

  lemma ExampleRemoveCommas()
    ensures RemoveCommas("1,234.56") == "1234.56"
  {
    var x, y := "1", "234.56";
    assert forall i :: 0 <= i < |y| ==> y[i] != ',';
    RemoveCommasJoin(x, y);
    assert x + "," + y == "1,234.56";
    assert x + y == "1234.56";
  }

  /** `"1,234.56"` is exactly 1234.56. */
  lemma ThousandsExample()
    ensures ParseAmount("1,234.56") == Some(Decimal(123456, 2))
  {
    ThousandsCommas();
    ThousandsUnsigned();
  }

  lemma ThousandsCommas()
    ensures ParseAmount("1,234.56") == ParseUnsigned("1234.56")
  {
    ExampleCommas();
    var u := "1234.56";
    ParseDecimalSigned(false, u);
    assert "" + u == u;
  }

  lemma ThousandsUnsigned()
    ensures ParseUnsigned("1234.56") == Some(Decimal(123456, 2))
  {
    assert "1234.56" == "1234" + "." + "56";
    ParseUnsignedPoint("1234", "56");
    assert "1234" + "56" == "123456";
    ExampleDigits();
  }

  /** The empty text and a text with letters are not amounts. */
  lemma InvalidAmountExamples()
    ensures ParseAmount("").None?
    ensures ParseAmount("  ").None?
    ensures ParseAmount("12a").None?
  {
    assert Strip("  ") == [];
    LettersNotAmount();
  }

  lemma LettersNotAmount()
    ensures ParseAmount("12a").None?
  {
    var t := "12a";
    StripUnspaced(t);
    RemoveCommasNone(t);
    assert !IsDigit(t[2]);
  }
}
