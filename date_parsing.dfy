/** `parse_date` of the CSV importer: the input is stripped, then the five
    `DATE_FORMATS` are tried in their fixed order and the first format that
    both matches the text and names a real calendar date wins. */
module DateParsing {
  import opened Text
  import opened Calendar

  datatype Field = Year | Month | Day

  /** A `strptime` pattern made of three numeric fields joined by one separator:
      `%Y` is four digits, `%m` and `%d` two. */
  datatype DateFormat = DateFormat(first: Field, second: Field, third: Field, sep: char)

  const YMD_DASH: DateFormat := DateFormat(Year, Month, Day, '-')    // %Y-%m-%d
  const DMY_SLASH: DateFormat := DateFormat(Day, Month, Year, '/')   // %d/%m/%Y
  const MDY_SLASH: DateFormat := DateFormat(Month, Day, Year, '/')   // %m/%d/%Y
  const DMY_DASH: DateFormat := DateFormat(Day, Month, Year, '-')    // %d-%m-%Y
  const YMD_SLASH: DateFormat := DateFormat(Year, Month, Day, '/')   // %Y/%m/%d

  const DATE_FORMATS: seq<DateFormat> := [YMD_DASH, DMY_SLASH, MDY_SLASH, DMY_DASH, YMD_SLASH]

  function Width(f: Field): nat {
    if f == Year then 4 else 2
  }

  /** Each field appears exactly once in a format. */
  predicate WellFormed(fmt: DateFormat) {
    fmt.first != fmt.second && fmt.second != fmt.third && fmt.first != fmt.third
  }

  /** The value the format assigns to field `f`, given the three numbers read. */
  function Pick(fmt: DateFormat, f: Field, a: int, b: int, c: int): int {
    if fmt.first == f then a else if fmt.second == f then b else c
  }

  function FieldOf(d: Date, f: Field): int {
    match f
    case Year => d.year
    case Month => d.month
    case Day => d.day
  }

  /** The three numbers a text in the layout of `fmt` spells, or `None` when
      the text does not have that layout (lengths, separators, digits). */
  function Fields(fmt: DateFormat, s: string): (r: Option<(nat, nat, nat)>)
    ensures r.Some? ==> |s| == Width(fmt.first) + Width(fmt.second) + Width(fmt.third) + 2
    ensures r.Some? ==> s[Width(fmt.first)] == fmt.sep
    ensures r.Some? ==> s[Width(fmt.first) + 1 + Width(fmt.second)] == fmt.sep
  {
    var w1, w2 := Width(fmt.first), Width(fmt.second);
    if |s| != w1 + w2 + Width(fmt.third) + 2 || s[w1] != fmt.sep || s[w1 + 1 + w2] != fmt.sep then None
    else
      var p1, p2, p3 := s[..w1], s[w1 + 1..w1 + 1 + w2], s[w1 + 2 + w2..];
      if AllDigits(p1) && AllDigits(p2) && AllDigits(p3)
      then Some((DigitsValue(p1), DigitsValue(p2), DigitsValue(p3)))
      else None
  }

  /** The date whose fields are the numbers read, in the order `fmt` gives them. */
  function Assemble(fmt: DateFormat, a: int, b: int, c: int): Date {
    Date(Pick(fmt, Year, a, b, c), Pick(fmt, Month, a, b, c), Pick(fmt, Day, a, b, c))
  }

  /** `datetime.strptime(s, fmt).date()` for one format: `None` where Python
      raises `ValueError`, both for text of the wrong layout and for numbers
      that are not a calendar date. */
  function ParseWith(fmt: DateFormat, s: string): (r: Option<Date>)
    ensures r.Some? ==> ValidDate(r.value) && Fields(fmt, s).Some?
  {
    match Fields(fmt, s)
    case None => None
    case Some((a, b, c)) =>
      var d := Assemble(fmt, a, b, c);
      if ValidDate(d) then Some(d) else None
  }

  /** `d.strftime(fmt)`: the text format `fmt` writes for `d`. */
  function Render(fmt: DateFormat, d: Date): string
    requires ValidDate(d)
  {
    PadDigits(FieldOf(d, fmt.first), Width(fmt.first)) + [fmt.sep]
      + PadDigits(FieldOf(d, fmt.second), Width(fmt.second)) + [fmt.sep]
      + PadDigits(FieldOf(d, fmt.third), Width(fmt.third))
  }

  /** Three digit strings of the widths `fmt` expects, joined by its
      separator, read as their three values. */
  lemma FieldsOfPieces(fmt: DateFormat, p1: string, p2: string, p3: string)
    requires |p1| == Width(fmt.first) && |p2| == Width(fmt.second) && |p3| == Width(fmt.third)
    requires AllDigits(p1) && AllDigits(p2) && AllDigits(p3)
    ensures Fields(fmt, p1 + [fmt.sep] + p2 + [fmt.sep] + p3)
      == Some((DigitsValue(p1), DigitsValue(p2), DigitsValue(p3)))
  {
    JoinedPieces(p1, p2, p3, fmt.sep);
  }

  /** Where the three pieces and the two separators sit in the joined text. */
  lemma JoinedPieces(p1: string, p2: string, p3: string, sep: char)
    ensures var s, w1, w2 := p1 + [sep] + p2 + [sep] + p3, |p1|, |p2|;
      && |s| == w1 + w2 + |p3| + 2
      && s[w1] == sep && s[w1 + 1 + w2] == sep
      && s[..w1] == p1 && s[w1 + 1..w1 + 1 + w2] == p2 && s[w1 + 2 + w2..] == p3
  {
    var s, w1, w2 := p1 + [sep] + p2 + [sep] + p3, |p1|, |p2|;
    assert s[..w1] == p1;
    assert s[w1 + 1..w1 + 1 + w2] == p2;
    assert s[w1 + 2 + w2..] == p3;
  }

  lemma FieldsRender(fmt: DateFormat, d: Date)
    requires ValidDate(d)
    ensures Fields(fmt, Render(fmt, d)) == Some((FieldOf(d, fmt.first), FieldOf(d, fmt.second), FieldOf(d, fmt.third)))
  {
    var x, y, z := FieldOf(d, fmt.first), FieldOf(d, fmt.second), FieldOf(d, fmt.third);
    var w1, w2, w3 := Width(fmt.first), Width(fmt.second), Width(fmt.third);
    assert x < Pow10(w1) && y < Pow10(w2) && z < Pow10(w3) by {
      assert Pow10(2) == 100 && Pow10(4) == 10000;
    }
    PadDigitsFits(x, w1);
    PadDigitsFits(y, w2);
    PadDigitsFits(z, w3);
    FieldsOfPieces(fmt, PadDigits(x, w1), PadDigits(y, w2), PadDigits(z, w3));
  }

  /** Each format reads back what it writes. */
  lemma ParseRender(fmt: DateFormat, d: Date)
    requires WellFormed(fmt) && ValidDate(d)
    ensures ParseWith(fmt, Render(fmt, d)) == Some(d)
  {
    FieldsRender(fmt, d);
    var x, y, z := FieldOf(d, fmt.first), FieldOf(d, fmt.second), FieldOf(d, fmt.third);
    assert Assemble(fmt, x, y, z) == d;
  }

  /** The first format in `fmts` that reads `t`. */
  function FirstMatch(fmts: seq<DateFormat>, t: string): (r: Option<Date>)
    ensures r.Some? ==> ValidDate(r.value)
  {
    if fmts == [] then None
    else match ParseWith(fmts[0], t)
      case Some(d) => Some(d)
      case None => FirstMatch(fmts[1..], t)
  }

  /** `parse_date(s)`: `None` where the source raises
      `ValueError("Unsupported date format ...")`. */
  function ParseDate(s: string): (r: Option<Date>)
    ensures r.Some? ==> ValidDate(r.value)
  {
    FirstMatch(DATE_FORMATS, Strip(s))
  }

  /** `parse_date` ignores whitespace around the text. */
  lemma ParseDatePadded(a: string, t: string, b: string)
    requires AllSpace(a) && AllSpace(b) && Unspaced(t)
    ensures ParseDate(a + t + b) == ParseDate(t)
  {
    StripPadded(a, t, b);
    StripUnspaced(t);
  }

  /** First success wins: when format `i` is the first one that reads `t`,
      its reading is the result. */
  lemma {:induction false} FirstMatchIsFirst(fmts: seq<DateFormat>, t: string, i: nat)
    requires i < |fmts| && ParseWith(fmts[i], t).Some?
    requires forall j :: 0 <= j < i ==> ParseWith(fmts[j], t).None?
    ensures FirstMatch(fmts, t) == ParseWith(fmts[i], t)
  {
    if i > 0 {
      assert ParseWith(fmts[0], t).None?;
      FirstMatchIsFirst(fmts[1..], t, i - 1);
    }
  }

  /** The parse fails exactly when no format reads `t`. */
  lemma {:induction false} FirstMatchFails(fmts: seq<DateFormat>, t: string)
    ensures FirstMatch(fmts, t).None? <==> forall i :: 0 <= i < |fmts| ==> ParseWith(fmts[i], t).None?
  {
    if fmts != [] {
      FirstMatchFails(fmts[1..], t);
      if ParseWith(fmts[0], t).None? {
        assert forall i :: 1 <= i < |fmts| ==> fmts[i] == fmts[1..][i - 1];
      }
    }
  }

  /** The result is always the reading of some format. */
  lemma {:induction false} FirstMatchFrom(fmts: seq<DateFormat>, t: string) returns (i: nat)
    requires FirstMatch(fmts, t).Some?
    ensures i < |fmts| && FirstMatch(fmts, t) == ParseWith(fmts[i], t)
    ensures forall j :: 0 <= j < i ==> ParseWith(fmts[j], t).None?
  {
    if ParseWith(fmts[0], t).Some? {
      i := 0;
    } else {
      var k := FirstMatchFrom(fmts[1..], t);
      i := k + 1;
    }
  }

  /** The shape of a rendered date: the separator at its two places and a
      digit everywhere else. */
  lemma RenderShape(fmt: DateFormat, d: Date)
    requires ValidDate(d)
    ensures var s := Render(fmt, d);
      var w1, w2, w3 := Width(fmt.first), Width(fmt.second), Width(fmt.third);
      |s| == w1 + w2 + w3 + 2 && s[w1] == fmt.sep && s[w1 + 1 + w2] == fmt.sep
      && (forall i :: 0 <= i < |s| && i != w1 && i != w1 + 1 + w2 ==> IsDigit(s[i]))
  {
    var x, y, z := FieldOf(d, fmt.first), FieldOf(d, fmt.second), FieldOf(d, fmt.third);
    var w1, w2, w3 := Width(fmt.first), Width(fmt.second), Width(fmt.third);
    assert x < Pow10(w1) && y < Pow10(w2) && z < Pow10(w3) by {
      assert Pow10(2) == 100 && Pow10(4) == 10000;
    }
    PadDigitsFits(x, w1);
    PadDigitsFits(y, w2);
    PadDigitsFits(z, w3);
  }

  /** Two formats with the same widths and separator read the same numbers. */
  lemma SameLayout(f: DateFormat, g: DateFormat, s: string)
    requires Width(f.first) == Width(g.first) && Width(f.second) == Width(g.second)
    requires Width(f.third) == Width(g.third) && f.sep == g.sep
    ensures Fields(f, s) == Fields(g, s)
  {
  }

  /** A text with something other than the separator where `fmt` puts its
      first one is not read by `fmt`. */
  lemma WrongSeparator(fmt: DateFormat, s: string)
    requires Width(fmt.first) < |s| && s[Width(fmt.first)] != fmt.sep
    ensures ParseWith(fmt, s).None?
  {
  }

  /** `parse_date` written out as the chain of its five attempts, in order. */
  lemma ParseDateChain(s: string)
    ensures var t := Strip(s);
      ParseDate(s) ==
        if ParseWith(YMD_DASH, t).Some? then ParseWith(YMD_DASH, t)
        else if ParseWith(DMY_SLASH, t).Some? then ParseWith(DMY_SLASH, t)
        else if ParseWith(MDY_SLASH, t).Some? then ParseWith(MDY_SLASH, t)
        else if ParseWith(DMY_DASH, t).Some? then ParseWith(DMY_DASH, t)
        else ParseWith(YMD_SLASH, t)
  {
    var t := Strip(s);
    var f := DATE_FORMATS;
    assert f[1..] == [DMY_SLASH, MDY_SLASH, DMY_DASH, YMD_SLASH];
    assert f[1..][1..] == [MDY_SLASH, DMY_DASH, YMD_SLASH];
    assert f[1..][1..][1..] == [DMY_DASH, YMD_SLASH];
    assert f[1..][1..][1..][1..] == [YMD_SLASH];
    assert f[1..][1..][1..][1..][1..] == [];
    var r4 := FirstMatch([YMD_SLASH], t);
    assert [YMD_SLASH][1..] == [];
    assert FirstMatch([], t) == None;
    assert r4 == ParseWith(YMD_SLASH, t);
    var r3 := FirstMatch([DMY_DASH, YMD_SLASH], t);
    assert r3 == if ParseWith(DMY_DASH, t).Some? then ParseWith(DMY_DASH, t) else r4;
    var r2 := FirstMatch([MDY_SLASH, DMY_DASH, YMD_SLASH], t);
    assert r2 == if ParseWith(MDY_SLASH, t).Some? then ParseWith(MDY_SLASH, t) else r3;
    var r1 := FirstMatch([DMY_SLASH, MDY_SLASH, DMY_DASH, YMD_SLASH], t);
    assert r1 == if ParseWith(DMY_SLASH, t).Some? then ParseWith(DMY_SLASH, t) else r2;
    assert FirstMatch(f, t) == if ParseWith(YMD_DASH, t).Some? then ParseWith(YMD_DASH, t) else r1;
  }

  lemma StripRendered(fmt: DateFormat, d: Date)
    requires ValidDate(d)
    ensures Strip(Render(fmt, d)) == Render(fmt, d)
  {
    var s := Render(fmt, d);
    RenderShape(fmt, d);
    assert IsDigit(s[0]) && IsDigit(s[|s| - 1]);
    StripUnspaced(s);
  }

  /** A string in the `DD/MM/YYYY` layout is never taken for `YYYY-MM-DD`:
      format order decides and the day-first reading wins. */
  lemma DayFirstWins(d: Date)
    requires ValidDate(d)
    ensures ParseDate(Render(DMY_SLASH, d)) == Some(d)
  {
    var s := Render(DMY_SLASH, d);
    StripRendered(DMY_SLASH, d);
    ParseRender(DMY_SLASH, d);
    RenderShape(DMY_SLASH, d);
    WrongSeparator(YMD_DASH, s);
    ParseDateChain(s);
  }

  /** A month-first date whose day is at most 12 is read day-first: the
      month and the day trade places. */
  lemma MonthFirstReadDayFirst(d: Date)
    requires ValidDate(d) && d.day <= 12
    ensures ParseDate(Render(MDY_SLASH, d)) == Some(Date(d.year, d.day, d.month))
  {
    var e := Date(d.year, d.day, d.month);
    assert Render(MDY_SLASH, d) == Render(DMY_SLASH, e);
    DayFirstWins(e);
  }

  /** `MM/DD/YYYY` is used only when the day-first reading is not a date:
      a month-first date whose day exceeds 12 reads back as itself. */
  lemma MonthFirstFallback(d: Date)
    requires ValidDate(d) && d.day > 12
    ensures ParseDate(Render(MDY_SLASH, d)) == Some(d)
  {
    var s := Render(MDY_SLASH, d);
    StripRendered(MDY_SLASH, d);
    ParseRender(MDY_SLASH, d);
    RenderShape(MDY_SLASH, d);
    WrongSeparator(YMD_DASH, s);
    FieldsRender(MDY_SLASH, d);
    SameLayout(DMY_SLASH, MDY_SLASH, s);
    assert !ValidDate(Assemble(DMY_SLASH, d.month, d.day, d.year));
    assert ParseWith(DMY_SLASH, s).None?;
    ParseDateChain(s);
  }

  /** `DD-MM-YYYY` texts reach their own format and read back. */
  lemma DayFirstDashRoundTrip(d: Date)
    requires ValidDate(d)
    ensures ParseDate(Render(DMY_DASH, d)) == Some(d)
  {
    var s := Render(DMY_DASH, d);
    StripRendered(DMY_DASH, d);
    ParseRender(DMY_DASH, d);
    RenderShape(DMY_DASH, d);
    WrongSeparator(YMD_DASH, s);
    WrongSeparator(DMY_SLASH, s);
    WrongSeparator(MDY_SLASH, s);
    ParseDateChain(s);
  }

  /** `YYYY/MM/DD` texts reach their own format and read back. */
  lemma YearFirstSlashRoundTrip(d: Date)
    requires ValidDate(d)
    ensures ParseDate(Render(YMD_SLASH, d)) == Some(d)
  {
    var u := Render(YMD_SLASH, d);
    StripRendered(YMD_SLASH, d);
    ParseRender(YMD_SLASH, d);
    RenderShape(YMD_SLASH, d);
    WrongSeparator(YMD_DASH, u);
    WrongSeparator(DMY_SLASH, u);
    WrongSeparator(MDY_SLASH, u);
    WrongSeparator(DMY_DASH, u);
    ParseDateChain(u);
  }

  /** `parse_date` reads back the ISO text `str(d)` that the export writes. */
  lemma ParseIsoFormat(d: Date)
    requires ValidDate(d)
    ensures ParseDate(IsoFormat(d)) == Some(d)
  {
    var s := Render(YMD_DASH, d);
    assert IsoFormat(d) == s;
    StripRendered(YMD_DASH, d);
    ParseRender(YMD_DASH, d);
    ParseDateChain(s);
  }

  /** The text `08/13/2025` wrote for the 13th of August is read back as that date,
      and the text `01/02/2025` wrote for the 2nd of January is read as the 1st of
      February. */
  lemma AmbiguousExample()
    ensures ParseDate(Render(MDY_SLASH, Date(2025, 8, 13))) == Some(Date(2025, 8, 13))
    ensures ParseDate(Render(MDY_SLASH, Date(2025, 1, 2))) == Some(Date(2025, 2, 1))
  {
    MonthFirstFallback(Date(2025, 8, 13));
    MonthFirstReadDayFirst(Date(2025, 1, 2));
  }

  /** An impossible calendar date fails every format. */
  lemma ImpossibleDateExample()
    ensures ParseDate("2025-02-30").None?
  {
    var t := "2025-02-30";
    NoThirtiethOfFebruary();
    WrongSeparator(DMY_SLASH, t);
    WrongSeparator(MDY_SLASH, t);
    WrongSeparator(DMY_DASH, t);
    WrongSeparator(YMD_SLASH, t);
    ParseDateChain(t);
  }

  lemma NoThirtiethOfFebruary()
    ensures ParseWith(YMD_DASH, "2025-02-30").None?
  {
    var t := "2025-02-30";
    assert t[..4] == "2025" && t[5..7] == "02" && t[8..] == "30";
    assert DigitsValue("02") == 2 by { assert "02"[..1] == "0"; }
    assert DigitsValue("30") == 30 by { assert "30"[..1] == "3"; }
  }
}
