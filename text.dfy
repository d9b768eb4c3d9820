/** Character-level helpers shared by the parsers: Python's `str.strip`
    whitespace set, ASCII case mapping, comma removal, decimal digit strings
    and the integer literal accepted by Python's `int()`. */
module Text {

  datatype Option<+T> = None | Some(value: T)

  /** An outcome that is either a value or the error the source raises or reports. */
  datatype Result<+T, +E> = Ok(value: T) | Err(error: E)

  /** The characters Python's `str.isspace` (and so `str.strip()`) treats as
      whitespace. */
  predicate IsSpace(c: char) {
    var n := c as int;
    (9 <= n <= 13) || (28 <= n <= 32) || n == 0x85 || n == 0xA0 || n == 0x1680
    || (0x2000 <= n <= 0x200A) || n == 0x2028 || n == 0x2029 || n == 0x202F
    || n == 0x205F || n == 0x3000
  }

  /** Drops leading whitespace. */
  function TrimStart(s: string): (r: string)
    ensures |r| <= |s|
    ensures r != [] ==> !IsSpace(r[0])
  {
    if s != [] && IsSpace(s[0]) then TrimStart(s[1..]) else s
  }

  /** Drops trailing whitespace. */
  function TrimEnd(s: string): (r: string)
    ensures |r| <= |s| && forall i :: 0 <= i < |r| ==> r[i] == s[i]
    ensures r != [] ==> !IsSpace(r[|r| - 1])
  {
    if s != [] && IsSpace(s[|s| - 1]) then TrimEnd(s[..|s| - 1]) else s
  }

  /** Python's `s.strip()`. */
  function Strip(s: string): (r: string)
    ensures |r| <= |s|
    ensures r != [] ==> !IsSpace(r[0]) && !IsSpace(r[|r| - 1])
  {
    TrimEnd(TrimStart(s))
  }

  /** A string that neither starts nor ends with whitespace is its own strip. */
  lemma StripUnspaced(s: string)
    requires s != [] ==> !IsSpace(s[0]) && !IsSpace(s[|s| - 1])
    ensures Strip(s) == s
  {
  }

  /** Stripping twice is stripping once. */
  lemma StripIdempotent(s: string)
    ensures Strip(Strip(s)) == Strip(s)
  {
    StripUnspaced(Strip(s));
  }

  /** Every character is whitespace. */
  predicate AllSpace(s: string) {
    forall i :: 0 <= i < |s| ==> IsSpace(s[i])
  }

  /** Neither the first nor the last character is whitespace. */
  predicate Unspaced(t: string) {
    t != [] ==> !IsSpace(t[0]) && !IsSpace(t[|t| - 1])
  }

  lemma {:induction false} TrimStartPadded(a: string, t: string)
    requires AllSpace(a) && (t != [] ==> !IsSpace(t[0]))
    ensures TrimStart(a + t) == t
    decreases |a|
  {
    if a == [] {
      assert a + t == t;
    } else {
      assert (a + t)[0] == a[0] && (a + t)[1..] == a[1..] + t;
      assert AllSpace(a[1..]) by {
        forall i | 0 <= i < |a[1..]| ensures IsSpace(a[1..][i]) {
          assert a[1..][i] == a[i + 1];
        }
      }
      TrimStartPadded(a[1..], t);
    }
  }

  lemma {:induction false} TrimEndPadded(t: string, b: string)
    requires AllSpace(b) && (t != [] ==> !IsSpace(t[|t| - 1]))
    ensures TrimEnd(t + b) == t
    decreases |b|
  {
    if b == [] {
      assert t + b == t;
    } else {
      var s := t + b;
      var n := |b| - 1;
      assert s[|s| - 1] == b[n] && s[..|s| - 1] == t + b[..n];
      assert AllSpace(b[..n]) by {
        forall i | 0 <= i < n ensures IsSpace(b[..n][i]) {
          assert b[..n][i] == b[i];
        }
      }
      TrimEndPadded(t, b[..n]);
    }
  }

  /** Stripping removes exactly the surrounding whitespace: text padded on both
      sides with whitespace strips to the text itself. */
  lemma StripPadded(a: string, t: string, b: string)
    requires AllSpace(a) && AllSpace(b) && Unspaced(t)
    ensures Strip(a + t + b) == t
  {
    if t == [] {
      assert a + t + b == (a + b) + t;
      assert AllSpace(a + b) by {
        forall i | 0 <= i < |a + b| ensures IsSpace((a + b)[i]) {
          if i >= |a| {
            assert (a + b)[i] == b[i - |a|];
          }
        }
      }
      TrimStartPadded(a + b, t);
    } else {
      assert a + t + b == a + (t + b);
      TrimStartPadded(a, t + b);
      TrimEndPadded(t, b);
    }
  }

  lemma {:induction false} TrimStartSuffix(s: string)
    ensures exists i :: 0 <= i <= |s| && TrimStart(s) == s[i..] && AllSpace(s[..i])
  {
    if s != [] && IsSpace(s[0]) {
      TrimStartSuffix(s[1..]);
      var i :| 0 <= i <= |s[1..]| && TrimStart(s[1..]) == s[1..][i..] && AllSpace(s[1..][..i]);
      assert s[1..][i..] == s[i + 1..];
      var lead := s[..i + 1];
      assert AllSpace(lead) by {
        forall k | 0 <= k < |lead| ensures IsSpace(lead[k]) {
          if k > 0 {
            assert lead[k] == s[1..][..i][k - 1];
          }
        }
      }
    } else {
      assert TrimStart(s) == s[0..] && AllSpace(s[..0]);
    }
  }

  lemma {:induction false} TrimEndPrefix(s: string)
    ensures exists j :: 0 <= j <= |s| && TrimEnd(s) == s[..j] && AllSpace(s[j..])
  {
    if s != [] && IsSpace(s[|s| - 1]) {
      var n := |s| - 1;
      TrimEndPrefix(s[..n]);
      var j :| 0 <= j <= n && TrimEnd(s[..n]) == s[..n][..j] && AllSpace(s[..n][j..]);
      assert s[..n][..j] == s[..j];
      assert AllSpace(s[j..]) by {
        forall k | 0 <= k < |s[j..]| ensures IsSpace(s[j..][k]) {
          if j + k < n {
            assert s[j..][k] == s[..n][j..][k];
          }
        }
      }
    } else {
      assert TrimEnd(s) == s[..|s|] && AllSpace(s[|s|..]);
    }
  }

  /** What stripping leaves is a slice of the text with only whitespace before
      and after it; with `StripPadded`, that slice is unique. */
  lemma StripSlice(s: string)
    ensures exists i, j :: 0 <= i <= j <= |s| && Strip(s) == s[i..j] && AllSpace(s[..i]) && AllSpace(s[j..])
  {
    TrimStartSuffix(s);
    var i :| 0 <= i <= |s| && TrimStart(s) == s[i..] && AllSpace(s[..i]);
    var u := s[i..];
    TrimEndPrefix(u);
    var j :| 0 <= j <= |u| && TrimEnd(u) == u[..j] && AllSpace(u[j..]);
    assert u[..j] == s[i..i + j] && u[j..] == s[i + j..];
  }

  predicate IsAsciiUpper(c: char) { 'A' <= c <= 'Z' }
  predicate IsAsciiLower(c: char) { 'a' <= c <= 'z' }

  /** `str.lower()` restricted to the ASCII letters. */
  function Lower(s: string): (r: string)
    ensures |r| == |s|
  {
    if s == [] then []
    else [if IsAsciiUpper(s[0]) then (s[0] as int + 32) as char else s[0]] + Lower(s[1..])
  }

  /** `str.upper()` restricted to the ASCII letters. */
  function Upper(s: string): (r: string)
    ensures |r| == |s|
  {
    if s == [] then []
    else [if IsAsciiLower(s[0]) then (s[0] as int - 32) as char else s[0]] + Upper(s[1..])
  }

  /** Lower-casing moves each ASCII capital to its small letter, keeps every
      other character, and leaves no ASCII capital. */
  lemma {:induction false} LowerChars(s: string)
    ensures forall i :: 0 <= i < |s| ==> !IsAsciiUpper(Lower(s)[i])
    ensures forall i :: 0 <= i < |s| ==>
      if IsAsciiUpper(s[i]) then Lower(s)[i] as int == s[i] as int + 32 else Lower(s)[i] == s[i]
  {
    if s != [] {
      LowerChars(s[1..]);
      forall i | 1 <= i < |s| ensures Lower(s)[i] == Lower(s[1..])[i - 1] && s[i] == s[1..][i - 1] { }
    }
  }

  /** Upper-casing moves each ASCII small letter to its capital, keeps every
      other character, and leaves no ASCII small letter. */
  lemma {:induction false} UpperChars(s: string)
    ensures forall i :: 0 <= i < |s| ==> !IsAsciiLower(Upper(s)[i])
    ensures forall i :: 0 <= i < |s| ==>
      if IsAsciiLower(s[i]) then Upper(s)[i] as int == s[i] as int - 32 else Upper(s)[i] == s[i]
  {
    if s != [] {
      UpperChars(s[1..]);
      forall i | 1 <= i < |s| ensures Upper(s)[i] == Upper(s[1..])[i - 1] && s[i] == s[1..][i - 1] { }
    }
  }

  /** `s.replace(",", "")`: every comma removed, every other character kept in order. */
  function RemoveCommas(s: string): (r: string)
    ensures |r| <= |s|
    ensures forall i :: 0 <= i < |r| ==> r[i] != ','
  {
    if s == [] then []
    else (if s[0] == ',' then [] else [s[0]]) + RemoveCommas(s[1..])
  }

  /** A string without commas is left as it is. */
  lemma {:induction false} RemoveCommasNone(s: string)
    requires ',' !in s
    ensures RemoveCommas(s) == s
  {
    if s != [] {
      assert s == [s[0]] + s[1..];
      RemoveCommasNone(s[1..]);
    }
  }

  /** Removing commas distributes over concatenation. */
  lemma {:induction false} RemoveCommasAppend(a: string, b: string)
    ensures RemoveCommas(a + b) == RemoveCommas(a) + RemoveCommas(b)
  {
    if a != [] {
      assert (a + b)[0] == a[0] && (a + b)[1..] == a[1..] + b;
      RemoveCommasAppend(a[1..], b);
      var h := if a[0] == ',' then [] else [a[0]];
      assert RemoveCommas(a + b) == h + (RemoveCommas(a[1..]) + RemoveCommas(b));
      assert RemoveCommas(a) == h + RemoveCommas(a[1..]);
    } else {
      assert a + b == b;
    }
  }

  /** A thousands separator between two comma-free pieces is dropped and the
      pieces joined. */
  lemma RemoveCommasJoin(x: string, y: string)
    requires ',' !in x && ',' !in y
    ensures RemoveCommas(x + "," + y) == x + y
  {
    RemoveCommasAppend(x + ",", y);
    TrailingCommaDropped(x);
    RemoveCommasNone(y);
  }

  lemma TrailingCommaDropped(x: string)
    requires ',' !in x
    ensures RemoveCommas(x + ",") == x
  {
    var comma: string := ",";
    assert RemoveCommas(comma) == [] by {
      assert comma[1..] == [];
    }
    RemoveCommasAppend(x, comma);
    RemoveCommasNone(x);
    assert x + [] == x;
  }

  // ---------------------------------------------------------------------
  // Decimal digit strings

  predicate IsDigit(c: char) { '0' <= c <= '9' }

  predicate AllDigits(s: string) { forall i :: 0 <= i < |s| ==> IsDigit(s[i]) }

  function DigitValue(c: char): (n: nat)
    requires IsDigit(c)
    ensures n < 10
  {
    c as int - '0' as int
  }

  function DigitChar(n: nat): (c: char)
    requires n < 10
    ensures IsDigit(c) && DigitValue(c) == n
  {
    ('0' as int + n) as char
  }

  function Pow10(n: nat): (p: nat)
    ensures p >= 1
  {
    if n == 0 then 1 else 10 * Pow10(n - 1)
  }

  /** The number a string of decimal digits denotes (most significant first). */
  function DigitsValue(s: string): nat
    requires AllDigits(s)
  {
    if s == [] then 0 else 10 * DigitsValue(s[..|s| - 1]) + DigitValue(s[|s| - 1])
  }

  /** The shortest decimal rendering of `n` (what Python's `str(n)` gives). */
  function NatDigits(n: nat): (s: string)
    ensures AllDigits(s) && s != []
    ensures |s| > 1 ==> s[0] != '0'
  {
    if n < 10 then [DigitChar(n)] else NatDigits(n / 10) + [DigitChar(n % 10)]
  }

  function Zeros(k: nat): (s: string)
    ensures |s| == k && AllDigits(s)
    ensures forall i :: 0 <= i < k ==> s[i] == '0'
  {
    if k == 0 then [] else ['0'] + Zeros(k - 1)
  }

  /** `n` rendered with at least `width` digits, zero-padded on the left. */
  function PadDigits(n: nat, width: nat): (s: string)
    ensures AllDigits(s) && |s| >= width
  {
    var d := NatDigits(n);
    if |d| >= width then d else Zeros(width - |d|) + d
  }

  lemma {:induction false} NatDigitsValue(n: nat)
    ensures DigitsValue(NatDigits(n)) == n
  {
    if n >= 10 {
      var s := NatDigits(n / 10) + [DigitChar(n % 10)];
      assert s[..|s| - 1] == NatDigits(n / 10);
      NatDigitsValue(n / 10);
    }
  }

  /** `NatDigits(n)` has at most `w` digits whenever `n < 10^w`. */
  lemma {:induction false} NatDigitsLength(n: nat, w: nat)
    requires 1 <= w && n < Pow10(w)
    ensures |NatDigits(n)| <= w
  {
    if n >= 10 {
      assert w >= 2;
      NatDigitsLength(n / 10, w - 1);
    }
  }

  lemma MulAssoc(x: int, p: int)
    ensures 10 * (x * p) == x * (10 * p)
  {
  }

  /** Leading zeros do not change the value. */
  lemma {:induction false} ZerosPrefixValue(k: nat, s: string)
    requires AllDigits(s)
    ensures DigitsValue(Zeros(k) + s) == DigitsValue(s)
    decreases |s|, k
  {
    if s == [] {
      assert Zeros(k) + s == Zeros(k);
      if k > 0 {
        assert Zeros(k)[..k - 1] == Zeros(k - 1);
        ZerosPrefixValue(k - 1, []);
        assert Zeros(k - 1) + [] == Zeros(k - 1);
      }
    } else {
      var t := Zeros(k) + s;
      assert t[..|t| - 1] == Zeros(k) + s[..|s| - 1];
      ZerosPrefixValue(k, s[..|s| - 1]);
    }
  }

  /** Zero-padding round-trips: the padded digits still denote `n`. */
  lemma PadDigitsValue(n: nat, width: nat)
    ensures DigitsValue(PadDigits(n, width)) == n
  {
    var d := NatDigits(n);
    NatDigitsValue(n);
    if |d| < width {
      PadDigitsShort(n, width);
      ZerosPrefixValue(width - |d|, d);
    }
  }

  lemma PadDigitsShort(n: nat, width: nat)
    requires |NatDigits(n)| < width
    ensures PadDigits(n, width) == Zeros(width - |NatDigits(n)|) + NatDigits(n)
  {
  }

  /** A number below `10^width` pads to exactly `width` digits. */
  lemma PadDigitsLength(n: nat, width: nat)
    requires 1 <= width && n < Pow10(width)
    ensures |PadDigits(n, width)| == width
  {
    NatDigitsLength(n, width);
  }

  /** A number below `10^width` pads to exactly `width` digits that denote it. */
  lemma PadDigitsFits(n: nat, width: nat)
    requires 1 <= width && n < Pow10(width)
    ensures |PadDigits(n, width)| == width && DigitsValue(PadDigits(n, width)) == n
  {
    PadDigitsValue(n, width);
    PadDigitsLength(n, width);
  }

  /** The value of a concatenation of digit strings. */
  lemma {:induction false} DigitsValueAppend(a: string, b: string)
    requires AllDigits(a) && AllDigits(b)
    ensures AllDigits(a + b)
    ensures DigitsValue(a + b) == DigitsValue(a) * Pow10(|b|) + DigitsValue(b)
    decreases |b|
  {
    if b == [] {
      assert a + b == a;
    } else {
      var t := a + b;
      var b' := b[..|b| - 1];
      assert t[..|t| - 1] == a + b';
      assert t[|t| - 1] == b[|b| - 1];
      DigitsValueAppend(a, b');
      var x, y, d := DigitsValue(a), DigitsValue(b'), DigitValue(b[|b| - 1]);
      calc {
        DigitsValue(t);
        10 * DigitsValue(a + b') + d;
        10 * (x * Pow10(|b'|) + y) + d;
        { MulAssoc(x, Pow10(|b'|)); }
        x * Pow10(|b|) + (10 * y + d);
      }
    }
  }

  // ---------------------------------------------------------------------
  // Python int()

  /** Python's `int(s)` on a string: surrounding whitespace, an optional sign,
      then one or more ASCII digits. */
  function ParseInt(s: string): (r: Option<int>)
    ensures r.Some? ==> Strip(s) != []
  {
    ParseIntText(Strip(s))
  }

  /** The sign and digits `int()` reads once the whitespace is stripped. */
  function ParseIntText(t: string): (r: Option<int>)
    ensures r.Some? ==> t != []
  {
    if t == [] then None
    else
      var neg := t[0] == '-';
      var body := if t[0] == '-' || t[0] == '+' then t[1..] else t;
      if body == [] || !AllDigits(body) then None
      else
        var v: int := DigitsValue(body);
        Some(if neg then -v else v)
  }

  /** `int()` reads back the rendering `str(n)` of every natural number. */
  lemma ParseIntNatDigits(n: nat)
    ensures ParseInt(NatDigits(n)) == Some(n)
  {
    var d := NatDigits(n);
    assert !IsSpace(d[0]) && !IsSpace(d[|d| - 1]);
    StripUnspaced(d);
    NatDigitsValue(n);
  }

  /** `int()` of an unsigned digit string is the number the digits denote; leading
      zeros are allowed. */
  lemma ParseIntDigits(s: string)
    requires s != [] && AllDigits(s)
    ensures ParseInt(s) == Some(DigitsValue(s))
  {
    assert !IsSpace(s[0]) && !IsSpace(s[|s| - 1]);
    StripUnspaced(s);
  }

  /** An optional sign as `int()` and `Decimal` accept it. */
  predicate IsSign(sign: string) {
    sign == "" || sign == "+" || sign == "-"
  }

  /** `int()` of an optionally signed digit string, with any surrounding
      whitespace, is the signed number the digits denote. */
  lemma ParseIntSigned(a: string, sign: string, d: string, b: string)
    requires AllSpace(a) && AllSpace(b) && IsSign(sign) && d != [] && AllDigits(d)
    ensures ParseInt(a + sign + d + b) == Some(if sign == "-" then -(DigitsValue(d) as int) else DigitsValue(d))
  {
    var t := sign + d;
    assert t[|t| - 1] == d[|d| - 1];
    assert IsDigit(d[0]);
    if sign == "" {
      assert t == d;
    } else {
      assert t[0] == sign[0];
    }
    assert a + sign + d + b == a + t + b;
    StripPadded(a, t, b);
    ParseIntTextSigned(sign, d);
  }

  lemma ParseIntTextSigned(sign: string, d: string)
    requires IsSign(sign) && d != [] && AllDigits(d)
    ensures ParseIntText(sign + d) == Some(if sign == "-" then -(DigitsValue(d) as int) else DigitsValue(d))
  {
    var t := sign + d;
    if sign == "-" {
      assert t[0] == '-' && t[1..] == d;
    } else if sign == "+" {
      assert t[0] == '+' && t[1..] == d;
    } else {
      assert t == d && IsDigit(t[0]);
    }
  }

  /** `int()` accepts nothing else: once stripped, a successful parse is an
      optional sign followed by one or more digits. */
  lemma ParseIntOnlySigned(s: string)
    requires ParseInt(s).Some?
    ensures exists sign, d :: IsSign(sign) && d != [] && AllDigits(d) && Strip(s) == sign + d
  {
    var t := Strip(s);
    if t[0] == '-' || t[0] == '+' {
      assert IsSign(t[..1]) && t == t[..1] + t[1..];
    } else {
      assert IsSign("") && t == "" + t;
    }
  }

  /** Splits `s` at every occurrence of `sep`, as Python's `s.split(sep)`. */
  function Split(s: string, sep: char): (parts: seq<string>)
    ensures |parts| >= 1
    ensures forall i :: 0 <= i < |parts| ==> sep !in parts[i]
  {
    SplitFrom(s, sep, [])
  }

  function SplitFrom(s: string, sep: char, current: string): (parts: seq<string>)
    requires sep !in current
    ensures |parts| >= 1
    ensures forall i :: 0 <= i < |parts| ==> sep !in parts[i]
  {
    if s == [] then [current]
    else if s[0] == sep then [current] + SplitFrom(s[1..], sep, [])
    else SplitFrom(s[1..], sep, current + [s[0]])
  }

  /** Joining two separator-free pieces with the separator splits back into them. */
  lemma SplitTwo(a: string, b: string, sep: char)
    requires sep !in a && sep !in b
    ensures Split(a + [sep] + b, sep) == [a, b]
  {
    SplitFromNoSep(a + [sep] + b, sep, [], a, b);
    assert [] + a == a;
  }

  lemma {:induction false} SplitFromNoSep(s: string, sep: char, current: string, a: string, b: string)
    requires sep !in current && sep !in a && sep !in b
    requires s == a + [sep] + b
    ensures SplitFrom(s, sep, current) == [current + a, b]
    decreases |a|
  {
    if a == [] {
      assert s[0] == sep && s[1..] == b;
      SplitFromTail(b, sep, []);
      assert [] + b == b;
      assert current + a == current;
      assert SplitFrom(s, sep, current) == [current] + SplitFrom(b, sep, []);
    } else {
      assert s[0] == a[0] && s[1..] == a[1..] + [sep] + b;
      assert a[0] != sep && a[0] in a;
      SplitFromNoSep(s[1..], sep, current + [a[0]], a[1..], b);
      assert SplitFrom(s, sep, current) == SplitFrom(s[1..], sep, current + [a[0]]);
      assert current + [a[0]] + a[1..] == current + a;
    }
  }

  lemma {:induction false} SplitFromTail(s: string, sep: char, current: string)
    requires sep !in current && sep !in s
    ensures SplitFrom(s, sep, current) == [current + s]
    decreases |s|
  {
    if s == [] {
      assert current + s == current;
    } else {
      assert s[0] != sep;
      SplitFromTail(s[1..], sep, current + [s[0]]);
      assert current + [s[0]] + s[1..] == current + s;
    }
  }

  /** `sep.join(parts)`. */
  function Join(parts: seq<string>, sep: char): string {
    if parts == [] then []
    else if |parts| == 1 then parts[0]
    else parts[0] + [sep] + Join(parts[1..], sep)
  }

  /** Joining the parts with the separator gives back the text. */
  lemma SplitJoin(s: string, sep: char)
    ensures Join(Split(s, sep), sep) == s
  {
    SplitFromJoin(s, sep, []);
    assert [] + s == s;
  }

  lemma {:induction false} SplitFromJoin(s: string, sep: char, current: string)
    requires sep !in current
    ensures Join(SplitFrom(s, sep, current), sep) == current + s
    decreases |s|
  {
    if s == [] {
      assert current + s == current;
    } else if s[0] == sep {
      var rest := SplitFrom(s[1..], sep, []);
      SplitFromJoin(s[1..], sep, []);
      assert ([current] + rest)[1..] == rest;
      assert [] + s[1..] == s[1..];
      assert current + [sep] + s[1..] == current + s;
    } else {
      SplitFromJoin(s[1..], sep, current + [s[0]]);
      assert current + [s[0]] + s[1..] == current + s;
    }
  }

  /** There is one part more than there are separators. */
  lemma SplitCount(s: string, sep: char)
    ensures |Split(s, sep)| == multiset(s)[sep] + 1
  {
    SplitFromCount(s, sep, []);
  }

  lemma {:induction false} SplitFromCount(s: string, sep: char, current: string)
    requires sep !in current
    ensures |SplitFrom(s, sep, current)| == multiset(s)[sep] + 1
    decreases |s|
  {
    if s != [] {
      assert s == [s[0]] + s[1..];
      if s[0] == sep {
        SplitFromCount(s[1..], sep, []);
      } else {
        SplitFromCount(s[1..], sep, current + [s[0]]);
      }
    }
  }
}
