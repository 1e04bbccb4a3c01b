/**
 * The text conversions the fact extractor relies on: `str.strip`, the
 * calendar-date reading of `date.fromisoformat` applied to the first ten
 * characters of a date element, and the decimal reading of `float` applied to
 * a fact's text with its thousands separators removed.
 */
module Parsing {
  import opened Common

  // ---------- Whitespace ----------

  /**
   * The characters `str.isspace` accepts: the ASCII controls tab to carriage
   * return, the file, group, record and unit separators, the space, and the
   * Unicode separators and spaces.
   */
  predicate IsSpace(c: char)
  {
    || '\t' <= c <= '\r'
    || '\U{001C}' <= c <= ' '
    || c == '\U{0085}' || c == '\U{00A0}' || c == '\U{1680}'
    || '\U{2000}' <= c <= '\U{200A}'
    || c == '\U{2028}' || c == '\U{2029}' || c == '\U{202F}' || c == '\U{205F}' || c == '\U{3000}'
  }

  /** The number of whitespace characters at the start of `s`. */
  function SpacesBefore(s: string): (i: nat)
    ensures i <= |s|
    ensures forall k :: 0 <= k < i ==> IsSpace(s[k])
    ensures i == |s| || !IsSpace(s[i])
  {
    if s == [] || !IsSpace(s[0]) then 0
    else
      assert forall k :: 1 <= k < |s| ==> s[1..][k - 1] == s[k];
      1 + SpacesBefore(s[1..])
  }

  /** Where `s` ends once the whitespace after position `lo` at its end is cut off. */
  function EndBefore(s: string, lo: nat): (j: nat)
    requires lo <= |s|
    ensures lo <= j <= |s|
    ensures forall k :: j <= k < |s| ==> IsSpace(s[k])
    ensures j == lo || !IsSpace(s[j - 1])
    decreases |s|
  {
    if |s| == lo || !IsSpace(s[|s| - 1]) then |s|
    else
      assert forall k :: 0 <= k < |s| - 1 ==> s[..|s| - 1][k] == s[k];
      EndBefore(s[..|s| - 1], lo)
  }

  /** `r` is `s[i..i + |r|]`, and everything of `s` around it is whitespace. */
  ghost predicate StrippedAt(s: string, r: string, i: int)
  {
    && 0 <= i <= |s| - |r|
    && r == s[i..i + |r|]
    && (forall k :: 0 <= k < i ==> IsSpace(s[k]))
    && (forall k :: i + |r| <= k < |s| ==> IsSpace(s[k]))
  }

  /** `s.strip()`: `s` without the whitespace on either side. */
  function Strip(s: string): (r: string)
    ensures r == [] || (!IsSpace(r[0]) && !IsSpace(r[|r| - 1]))
  {
    var i := SpacesBefore(s);
    s[i..EndBefore(s, i)]
  }

  /**
   * Stripping removes only whitespace, and only on the two sides: the result
   * is an infix of `s` with nothing but whitespace before and after it.
   */
  lemma StripSpec(s: string)
    ensures exists i :: StrippedAt(s, Strip(s), i)
  {
    assert StrippedAt(s, Strip(s), SpacesBefore(s));
  }

  /** Text without surrounding whitespace is left as it is. */
  lemma StripKeepsTrimmed(s: string)
    requires s == [] || (!IsSpace(s[0]) && !IsSpace(s[|s| - 1]))
    ensures Strip(s) == s
  {
    if s != [] {
      assert SpacesBefore(s) == 0;
      assert EndBefore(s, 0) == |s|;
    }
    assert s[0..|s|] == s;
  }

  // ---------- Digits ----------

  predicate IsDigit(c: char)
  {
    '0' <= c <= '9'
  }

  predicate AllDigits(s: string)
  {
    forall i :: 0 <= i < |s| ==> IsDigit(s[i])
  }

  /** The number a string of decimal digits spells. */
  function DigitsValue(s: string): (n: nat)
    requires AllDigits(s)
  {
    if s == [] then 0 else 10 * DigitsValue(s[..|s| - 1]) + (s[|s| - 1] - '0') as nat
  }

  function DigitChar(n: nat): (c: char)
    requires n < 10
    ensures IsDigit(c)
  {
    ('0' as int + n) as char
  }

  /** `n` written with exactly `width` digits, padded with leading zeros (`n` must fit). */
  function PadDigits(n: nat, width: nat): (s: string)
    ensures |s| == width && AllDigits(s)
  {
    if width == 0 then [] else PadDigits(n / 10, width - 1) + [DigitChar(n % 10)]
  }

  function Pow10(k: nat): (p: nat)
    ensures p >= 1
  {
    if k == 0 then 1 else 10 * Pow10(k - 1)
  }

  lemma {:induction false} PadDigitsValue(n: nat, width: nat)
    requires n < Pow10(width)
    ensures DigitsValue(PadDigits(n, width)) == n
  {
    if width > 0 {
      var s := PadDigits(n, width);
      assert s[..|s| - 1] == PadDigits(n / 10, width - 1);
      PadDigitsValue(n / 10, width - 1);
    }
  }

  // ---------- Calendar dates ----------

  /** A calendar date is kept as the number YYYYMMDD, whose order is the calendar order. */
  type Date = int

  predicate IsLeapYear(y: int)
  {
    y % 4 == 0 && (y % 100 != 0 || y % 400 == 0)
  }

  function DaysInMonth(y: int, m: int): int
    requires 1 <= m <= 12
  {
    if m == 2 then (if IsLeapYear(y) then 29 else 28)
    else if m == 4 || m == 6 || m == 9 || m == 11 then 30
    else 31
  }

  /** The dates `date` can represent: years 1 to 9999 and real days of the month. */
  predicate ValidDate(y: int, m: int, d: int)
  {
    1 <= y <= 9999 && 1 <= m <= 12 && 1 <= d <= DaysInMonth(y, m)
  }

  function EncodeDate(y: int, m: int, d: int): Date
  {
    10000 * y + 100 * m + d
  }

  /** Comparing encoded dates compares year, then month, then day. */
  lemma EncodeDateOrder(y: int, m: int, d: int, y': int, m': int, d': int)
    requires ValidDate(y, m, d) && ValidDate(y', m', d')
    ensures EncodeDate(y, m, d) < EncodeDate(y', m', d') <==>
            y < y' || (y == y' && (m < m' || (m == m' && d < d')))
    ensures EncodeDate(y, m, d) == EncodeDate(y', m', d') <==> y == y' && m == m' && d == d'
  {
  }

  /** `date.fromisoformat` on the extended calendar form YYYY-MM-DD. */
  function ParseIsoDate(s: string): (r: Option<Date>)
    ensures r.Some? ==> exists y, m, d :: ValidDate(y, m, d) && r.value == EncodeDate(y, m, d)
  {
    if |s| == 10 && s[4] == '-' && s[7] == '-'
       && AllDigits(s[..4]) && AllDigits(s[5..7]) && AllDigits(s[8..])
    then
      var y, m, d := DigitsValue(s[..4]), DigitsValue(s[5..7]), DigitsValue(s[8..]);
      if ValidDate(y, m, d) then Some(EncodeDate(y, m, d)) else None
    else None
  }

  /** `date.isoformat()`: YYYY-MM-DD. */
  function FormatIsoDate(y: nat, m: nat, d: nat): (s: string)
    ensures |s| == 10
  {
    PadDigits(y, 4) + "-" + PadDigits(m, 2) + "-" + PadDigits(d, 2)
  }

  /** Reading back a formatted valid date gives that date. */
  lemma IsoDateRoundTrip(y: nat, m: nat, d: nat)
    requires ValidDate(y, m, d)
    ensures ParseIsoDate(FormatIsoDate(y, m, d)) == Some(EncodeDate(y, m, d))
  {
    var s := FormatIsoDate(y, m, d);
    assert s[..4] == PadDigits(y, 4);
    assert s[5..7] == PadDigits(m, 2);
    assert s[8..] == PadDigits(d, 2);
    PadDigitsValue(y, 4);
    PadDigitsValue(m, 2);
    PadDigitsValue(d, 2);
  }

  /**
   * The date of a date element: `date.fromisoformat((text or "").strip()[:10])`,
   * `None` when that raises.
   */
  function DateOfText(text: Option<string>): Option<Date>
  {
    var s := Strip(if text.Some? then text.value else "");
    ParseIsoDate(if |s| <= 10 then s else s[..10])
  }

  // ---------- Decimal numbers ----------

  /** `s.replace(",", "")`. */
  function RemoveCommas(s: string): (r: string)
    ensures ',' !in r
    ensures |r| <= |s|
  {
    if s == [] then []
    else (if s[0] == ',' then [] else [s[0]]) + RemoveCommas(s[1..])
  }

  /** Removing the commas of a concatenation removes those of each part, keeping the order. */
  lemma {:induction false} RemoveCommasAppend(a: string, b: string)
    ensures RemoveCommas(a + b) == RemoveCommas(a) + RemoveCommas(b)
  {
    if a != [] {
      assert (a + b)[1..] == a[1..] + b;
      RemoveCommasAppend(a[1..], b);
    } else {
      assert a + b == b;
    }
  }

  /** A comma is dropped and any other character kept. */
  lemma RemoveCommasOne(c: char)
    ensures RemoveCommas([c]) == if c == ',' then [] else [c]
  {
    assert [c][1..] == [];
  }

  /** The position of the first `c` in `s`, or `|s|` when there is none. */
  function FirstIndex(s: string, c: char): (i: nat)
    ensures i <= |s| && (i < |s| ==> s[i] == c)
    ensures forall j :: 0 <= j < i ==> s[j] != c
  {
    if s == [] || s[0] == c then 0 else 1 + FirstIndex(s[1..], c)
  }

  /** `n / 10^k`: the number `n` with the decimal point moved `k` places left. */
  function Shift(n: nat, k: nat): real
  {
    if k == 0 then n as real else Shift(n, k - 1) / 10.0
  }

  /** The number `whole.frac` spells: the whole part plus the fraction scaled by its number of digits. */
  function PointValue(whole: string, frac: string): real
    requires AllDigits(whole) && AllDigits(frac)
  {
    DigitsValue(whole) as real + Shift(DigitsValue(frac), |frac|)
  }

  /** Digits before and after an optional point, at least one digit in all. */
  function UnsignedDecimal(s: string): Option<real>
  {
    var p := FirstIndex(s, '.');
    if p == |s| then
      (if AllDigits(s) && s != [] then Some(DigitsValue(s) as real) else None)
    else
      var whole, frac := s[..p], s[p + 1..];
      if AllDigits(whole) && AllDigits(frac) && |whole| + |frac| > 0
      then Some(PointValue(whole, frac))
      else None
  }

  /** `float(s)` on decimal text: optional surrounding whitespace, sign, digits with an optional point. */
  function ParseDecimal(s: string): Option<real>
  {
    var t := Strip(s);
    if t != [] && t[0] == '-' then
      (var u := UnsignedDecimal(t[1..]); if u.Some? then Some(-u.value) else None)
    else if t != [] && t[0] == '+' then UnsignedDecimal(t[1..])
    else UnsignedDecimal(t)
  }

  /** The value of a fact: `float((text or "").replace(",", "").strip())`, `None` when that raises. */
  function FactValue(text: Option<string>): Option<real>
  {
    ParseDecimal(RemoveCommas(if text.Some? then text.value else ""))
  }

  /** A non-empty run of digits reads as the number it spells. */
  lemma ParseDecimalOfDigits(t: string)
    requires t != [] && AllDigits(t)
    ensures ParseDecimal(t) == Some(DigitsValue(t) as real)
  {
    StripKeepsTrimmed(t);
    assert FirstIndex(t, '.') == |t|;
  }

  /**
   * Digits, a point and digits, with at least one digit in all, read as the
   * number they spell.
   */
  lemma ParseDecimalOfPoint(whole: string, frac: string)
    requires AllDigits(whole) && AllDigits(frac) && |whole| + |frac| > 0
    ensures ParseDecimal(whole + "." + frac) == Some(PointValue(whole, frac))
  {
    var t := whole + ['.'] + frac;
    assert Strip(t) == t && t[0] != '-' && t[0] != '+' by {
      assert t[0] == if whole != [] then whole[0] else '.';
      assert t[|t| - 1] == if frac != [] then frac[|frac| - 1] else '.';
      StripKeepsTrimmed(t);
    }
    Unsigned(t);
    FirstPoint(whole, frac);
    assert t[..|whole|] == whole && t[|whole| + 1..] == frac;
    PointAt(t, whole, frac);
  }

  /** The first point of `whole.frac` is the one after the whole part. */
  lemma FirstPoint(whole: string, frac: string)
    requires AllDigits(whole)
    ensures FirstIndex(whole + ['.'] + frac, '.') == |whole|
  {
    var t := whole + ['.'] + frac;
    assert t[|whole|] == '.';
    assert forall j :: 0 <= j < |whole| ==> t[j] == whole[j];
  }

  /** Text whose first point splits it into two digit runs reads as their decimal number. */
  lemma PointAt(t: string, whole: string, frac: string)
    requires FirstIndex(t, '.') == |whole| < |t|
    requires t[..|whole|] == whole && t[|whole| + 1..] == frac
    requires AllDigits(whole) && AllDigits(frac) && |whole| + |frac| > 0
    ensures UnsignedDecimal(t) == Some(PointValue(whole, frac))
  {
  }

  /** Text that starts with a digit or a point reads the same after `+` and negated after `-`. */
  lemma ParseDecimalSigned(t: string)
    requires t != [] && (IsDigit(t[0]) || t[0] == '.') && !IsSpace(t[|t| - 1])
    ensures ParseDecimal("+" + t) == ParseDecimal(t)
    ensures ParseDecimal("-" + t).Some? <==> ParseDecimal(t).Some?
    ensures ParseDecimal("-" + t).Some? ==> ParseDecimal("-" + t).value == -ParseDecimal(t).value
  {
    var u := UnsignedDecimal(t);
    assert !IsSpace(t[0]) && t[0] != '-' && t[0] != '+';
    StripKeepsTrimmed(t);
    Unsigned(t);
    SignedText('+', t);
    LeadingSign("+" + t);
    SignedText('-', t);
    LeadingSign("-" + t);
  }

  /** Trimmed text without a leading sign reads as an unsigned number. */
  lemma Unsigned(p: string)
    requires Strip(p) == p && (p == [] || (p[0] != '-' && p[0] != '+'))
    ensures ParseDecimal(p) == UnsignedDecimal(p)
  {
  }

  /** Trimmed text with a leading sign reads as the rest, negated after `-`. */
  lemma LeadingSign(p: string)
    requires Strip(p) == p && p != [] && (p[0] == '-' || p[0] == '+')
    ensures var u := UnsignedDecimal(p[1..]);
            ParseDecimal(p) == if p[0] == '+' then u else if u.Some? then Some(-u.value) else None
  {
  }

  /** A sign in front of trimmed text: stripping keeps it, and the rest is the text. */
  lemma SignedText(c: char, t: string)
    requires c == '+' || c == '-'
    requires t != [] && !IsSpace(t[|t| - 1])
    ensures Strip([c] + t) == [c] + t
    ensures ([c] + t)[1..] == t
  {
    var p := [c] + t;
    assert p[1..] == t;
    assert p[0] == c && p[|p| - 1] == t[|t| - 1];
    StripKeepsTrimmed(p);
  }

  /** A fact element without text has no value: `float("")` raises. */
  lemma FactValueOfNone()
    ensures FactValue(None) == None
  {
    assert Strip("") == [];
  }

  /** Text without a comma is left as it is. */
  lemma {:induction false} RemoveCommasNone(s: string)
    requires ',' !in s
    ensures RemoveCommas(s) == s
  {
    if s != [] {
      RemoveCommasNone(s[1..]);
      assert s == [s[0]] + s[1..];
    }
  }

  /** Removing the separator between two comma-free groups joins them. */
  lemma GroupedDigits(a: string, b: string)
    requires ',' !in a && ',' !in b
    ensures RemoveCommas(a + "," + b) == a + b
  {
    var sep := [','];
    assert RemoveCommas(a + sep) == a by {
      RemoveCommasAppend(a, sep);
      RemoveCommasOne(',');
      RemoveCommasNone(a);
      assert a + [] == a;
    }
    RemoveCommasAppend(a + sep, b);
    RemoveCommasNone(b);
  }

  /** Thousands separators are ignored: `1,234` reads as 1234. */
  lemma FactValueOfGrouped(a: string, b: string)
    requires a != [] && AllDigits(a) && AllDigits(b)
    ensures AllDigits(a + b)
    ensures FactValue(Some(a + "," + b)) == Some(DigitsValue(a + b) as real)
  {
    assert forall i :: 0 <= i < |a| ==> a[i] != ',';
    assert forall i :: 0 <= i < |b| ==> b[i] != ',';
    GroupedDigits(a, b);
    assert forall i :: 0 <= i < |a + b| ==> IsDigit((a + b)[i]) by {
      forall i | 0 <= i < |a + b|
        ensures IsDigit((a + b)[i])
      {
        if i < |a| {
          assert (a + b)[i] == a[i];
        } else {
          assert (a + b)[i] == b[i - |a|];
        }
      }
    }
    ParseDecimalOfDigits(a + b);
  }

  /**
   * A date element whose text is a formatted date, possibly followed by more
   * text (such as a time) that does not end in whitespace, gives that date:
   * only the first ten characters are read.
   */
  lemma DateOfTextOfFormatted(y: nat, m: nat, d: nat, rest: string)
    requires ValidDate(y, m, d)
    requires rest == [] || !IsSpace(rest[|rest| - 1])
    ensures DateOfText(Some(FormatIsoDate(y, m, d) + rest)) == Some(EncodeDate(y, m, d))
  {
    var f := FormatIsoDate(y, m, d);
    var s := f + rest;
    assert f[..4] == PadDigits(y, 4);
    assert IsDigit(s[0]) by {
      assert s[0] == f[0] == PadDigits(y, 4)[0];
    }
    assert !IsSpace(s[|s| - 1]) by {
      if rest == [] {
        assert s[|s| - 1] == f[9] == PadDigits(d, 2)[1];
      }
    }
    StripKeepsTrimmed(s);
    assert s[..10] == f;
    IsoDateRoundTrip(y, m, d);
  }

  /** A date element without text gives no date. */
  lemma DateOfTextOfNone()
    ensures DateOfText(None) == None
  {
    assert Strip("") == [];
  }
}
