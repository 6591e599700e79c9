/** Field coercion in the row processors of internal/importer/importer.go:
    `strconv.Atoi` / `strconv.ParseInt(val, 10, 64)`, `parseTime`,
    `parseTimeNullable` and the `TagBased` comparison. Each Go call returns a
    value and an error; the importer discards every such error with `_`, so
    a coercion never makes a row fail. */
module Coerce {
  import opened Wrappers
  import opened Schema
  import Ascii

  /** A Go `(value, error)` pair; `ok` is `err == nil`. */
  datatype Parsed<T> = Parsed(value: T, ok: bool)

  /** The attribute map of one `row` element, keyed by local name. */
  type Attrs = map<string, string>

  /** Go's `attrs[key]`: a missing key reads as the empty string. */
  function Get(attrs: Attrs, key: string): string {
    if key in attrs then attrs[key] else ""
  }

  // ----- integers -----

  predicate IsDigit(c: char) {
    '0' <= c <= '9'
  }

  predicate AllDigits(s: string) {
    forall i :: 0 <= i < |s| ==> IsDigit(s[i])
  }

  /** The value of a string of decimal digits, most significant first. */
  function DigitsValue(s: string): nat
    requires AllDigits(s)
  {
    if |s| == 0 then 0
    else DigitsValue(s[..|s| - 1]) * 10 + (s[|s| - 1] as int - '0' as int)
  }

  /** The syntax `strconv.ParseInt(s, 10, 64)` accepts: an optional `+` or
      `-` followed by at least one decimal digit, nothing else. */
  predicate IsDecimal(s: string) {
    if |s| > 0 && (s[0] == '+' || s[0] == '-') then |s| > 1 && AllDigits(s[1..])
    else |s| > 0 && AllDigits(s)
  }

  /** `strconv.Atoi` (and `ParseInt` in base 10): on a syntax error the value
      is 0. */
  function Atoi(s: string): (r: Parsed<int>)
    ensures r.ok <==> IsDecimal(s)
    ensures !r.ok ==> r.value == 0
    ensures r.ok && s[0] == '-' ==> r.value <= 0
    ensures r.ok && s[0] != '-' ==> r.value >= 0
  {
    if |s| == 0 then Parsed(0, false)
    else if s[0] == '+' || s[0] == '-' then
      var digits := s[1..];
      if |digits| > 0 && AllDigits(digits) then
        Parsed(if s[0] == '-' then 0 - DigitsValue(digits) else DigitsValue(digits), true)
      else Parsed(0, false)
    else if AllDigits(s) then Parsed(DigitsValue(s), true)
    else Parsed(0, false)
  }

  function Digit(d: nat): char
    requires d < 10
  {
    ('0' as int + d) as char
  }

  /** `strconv.Itoa` for a natural number. */
  function FormatNat(n: nat): (s: string)
    ensures |s| > 0 && AllDigits(s)
  {
    if n < 10 then [Digit(n)] else FormatNat(n / 10) + [Digit(n % 10)]
  }

  /** `strconv.Itoa`: the text the dump writes for an integer attribute. */
  function Format(n: int): (s: string)
    ensures IsDecimal(s)
  {
    if n < 0 then "-" + FormatNat(-n) else FormatNat(n)
  }

  lemma {:induction false} DigitsValueOfFormatNat(n: nat)
    ensures DigitsValue(FormatNat(n)) == n
  {
    var s := FormatNat(n);
    if n >= 10 {
      DigitsValueOfFormatNat(n / 10);
      assert s[..|s| - 1] == FormatNat(n / 10);
    }
  }

  /** Reading back a formatted integer gives the integer, without error. */
  lemma AtoiFormatRoundTrip(n: int)
    ensures Atoi(Format(n)) == Parsed(n, true)
  {
    if n < 0 {
      DigitsValueOfFormatNat(-n);
      assert Format(n)[1..] == FormatNat(-n);
    } else {
      DigitsValueOfFormatNat(n);
    }
  }

  /** A required integer column: `v, _ := strconv.Atoi(attrs[key])`. */
  function RequiredInt(attrs: Attrs, key: string): (r: int)
    ensures key !in attrs ==> r == 0
    ensures key in attrs && !IsDecimal(attrs[key]) ==> r == 0
    ensures key in attrs && IsDecimal(attrs[key]) ==> r == Atoi(attrs[key]).value
  {
    Atoi(Get(attrs, key)).value
  }

  /** A nullable integer column: null exactly when the attribute is absent or
      empty; any other text is a valid value, a malformed one being 0 because
      the parse error is dropped. */
  function NullableInt(attrs: Attrs, key: string): (r: Option<int>)
    ensures r.None? <==> key !in attrs || attrs[key] == ""
    ensures r.Some? && !IsDecimal(attrs[key]) ==> r.value == 0
    ensures r.Some? && IsDecimal(attrs[key]) ==> r.value == Atoi(attrs[key]).value
  {
    if key in attrs && attrs[key] != "" then Some(Atoi(attrs[key]).value) else None
  }

  /** A required integer written by the dump is read back as itself. */
  lemma RequiredIntRoundTrip(attrs: Attrs, key: string, n: int)
    ensures RequiredInt(attrs[key := Format(n)], key) == n
  {
    AtoiFormatRoundTrip(n);
  }

  /** A nullable integer written by the dump is read back as a valid value. */
  lemma NullableIntRoundTrip(attrs: Attrs, key: string, n: int)
    ensures NullableInt(attrs[key := Format(n)], key) == Some(n)
  {
    AtoiFormatRoundTrip(n);
  }

  // ----- timestamps -----

  /** The value of the `n` digits of `s` starting at `i`. */
  function Field(s: string, i: nat, n: nat): nat
    requires i + n <= |s| && AllDigits(s[i..i + n])
  {
    DigitsValue(s[i..i + n])
  }

  predicate IsLeap(year: int) {
    year % 4 == 0 && (year % 100 != 0 || year % 400 == 0)
  }

  function DaysIn(year: int, month: int): int {
    if month == 2 then (if IsLeap(year) then 29 else 28)
    else if month == 4 || month == 6 || month == 9 || month == 11 then 30
    else 31
  }

  /** A time that the layout `2006-01-02T15:04:05.000` can express. */
  predicate ValidTime(t: Time) {
    && 0 <= t.year <= 9999
    && 1 <= t.month <= 12
    && 1 <= t.day <= DaysIn(t.year, t.month)
    && 0 <= t.hour < 24
    && 0 <= t.minute < 60
    && 0 <= t.second < 60
    && 0 <= t.milli < 1000
  }

  /** The positions of the layout's digits and its separators. */
  predicate LayoutShape(s: string) {
    && |s| == 23
    && s[4] == '-' && s[7] == '-' && s[10] == 'T'
    && s[13] == ':' && s[16] == ':' && s[19] == '.'
    && AllDigits(s[0..4]) && AllDigits(s[5..7]) && AllDigits(s[8..10])
    && AllDigits(s[11..13]) && AllDigits(s[14..16]) && AllDigits(s[17..19])
    && AllDigits(s[20..23])
  }

  /** `time.Parse("2006-01-02T15:04:05.000", s)` on success. */
  function ParseLayout(s: string): (r: Option<Time>)
    ensures r.Some? ==> ValidTime(r.value)
  {
    if !LayoutShape(s) then None
    else
      var t := Time(Field(s, 0, 4), Field(s, 5, 2), Field(s, 8, 2),
                    Field(s, 11, 2), Field(s, 14, 2), Field(s, 17, 2), Field(s, 20, 3));
      if ValidTime(t) then Some(t) else None
  }

  /** `parseTime`: the empty string and any text the layout rejects give the
      zero time with an error. */
  function ParseTime(s: string): (r: Parsed<Time>)
    ensures s == "" ==> r == Parsed(ZeroTime, false)
    ensures !r.ok ==> r.value == ZeroTime
    ensures r.ok <==> ParseLayout(s).Some?
    ensures r.ok ==> ValidTime(r.value)
  {
    if s == "" then Parsed(ZeroTime, false)
    else match ParseLayout(s)
      case None => Parsed(ZeroTime, false)
      case Some(t) => Parsed(t, true)
  }

  /** `parseTimeNullable`: the empty string is null without error; text the
      layout rejects is null with an error. */
  function ParseTimeNullable(s: string): (r: Parsed<Option<Time>>)
    ensures s == "" ==> r == Parsed(None, true)
    ensures r.value.None? <==> s == "" || !r.ok
    ensures s != "" ==> (r.ok <==> ParseTime(s).ok)
    ensures r.value.Some? ==> r.value.value == ParseTime(s).value
  {
    if s == "" then Parsed(None, true)
    else match ParseLayout(s)
      case None => Parsed(None, false)
      case Some(t) => Parsed(Some(t), true)
  }

  /** A required timestamp column: `t, _ := parseTime(attrs[key])`. */
  function RequiredTime(attrs: Attrs, key: string): (r: Time)
    ensures key !in attrs || attrs[key] == "" ==> r == ZeroTime
    ensures key in attrs && ParseLayout(attrs[key]).Some? ==> r == ParseLayout(attrs[key]).value
    ensures key in attrs && ParseLayout(attrs[key]).None? ==> r == ZeroTime
  {
    ParseTime(Get(attrs, key)).value
  }

  /** A nullable timestamp column: `t, _ := parseTimeNullable(attrs[key])`. */
  function NullableTime(attrs: Attrs, key: string): (r: Option<Time>)
    ensures r.Some? <==> key in attrs && ParseLayout(attrs[key]).Some?
    ensures r.Some? ==> r.value == ParseLayout(attrs[key]).value
  {
    ParseTimeNullable(Get(attrs, key)).value
  }

  function Pad(n: nat, width: nat): (s: string)
    ensures |s| == width && AllDigits(s)
  {
    if width == 0 then "" else Pad(n / 10, width - 1) + [Digit(n % 10)]
  }

  /** The dump's text for a timestamp, in the layout the importer parses. */
  function FormatTime(t: Time): (s: string)
    requires ValidTime(t)
    ensures LayoutShape(s)
    ensures HasFields(s, Pad(t.year, 4), Pad(t.month, 2), Pad(t.day, 2), Pad(t.hour, 2),
                      Pad(t.minute, 2), Pad(t.second, 2), Pad(t.milli, 3))
  {
    var y, mo, d := Pad(t.year, 4), Pad(t.month, 2), Pad(t.day, 2);
    var h, mi, se, ms := Pad(t.hour, 2), Pad(t.minute, 2), Pad(t.second, 2), Pad(t.milli, 3);
    StampFields(y, mo, d, h, mi, se, ms);
    Stamp(y, mo, d, h, mi, se, ms)
  }

  /** The layout's fields joined by its punctuation. */
  function Stamp(y: string, mo: string, d: string, h: string, mi: string, se: string, ms: string): string {
    (y + "-" + mo + "-" + d + "T") + (h + ":" + mi + ":" + se + "." + ms)
  }

  /** `s` carries the given fields at the layout's positions. */
  predicate HasFields(s: string, y: string, mo: string, d: string, h: string, mi: string, se: string, ms: string) {
    && |s| == 23
    && s[0..4] == y && s[4] == '-' && s[5..7] == mo && s[7] == '-' && s[8..10] == d && s[10] == 'T'
    && s[11..13] == h && s[13] == ':' && s[14..16] == mi && s[16] == ':' && s[17..19] == se
    && s[19] == '.' && s[20..23] == ms
  }

  /** Fields of the layout's widths land at the layout's positions. */
  lemma StampFields(y: string, mo: string, d: string, h: string, mi: string, se: string, ms: string)
    requires |y| == 4 && |mo| == 2 && |d| == 2 && |h| == 2 && |mi| == 2 && |se| == 2 && |ms| == 3
    ensures HasFields(Stamp(y, mo, d, h, mi, se, ms), y, mo, d, h, mi, se, ms)
  {
    var date := y + "-" + mo + "-" + d + "T";
    var clock := h + ":" + mi + ":" + se + "." + ms;
    assert date[0..4] == y && date[5..7] == mo && date[8..10] == d;
    assert clock[0..2] == h && clock[3..5] == mi && clock[6..8] == se && clock[9..12] == ms;
    var s := date + clock;
    assert s[0..4] == date[0..4] && s[5..7] == date[5..7] && s[8..10] == date[8..10];
    assert s[11..13] == clock[0..2] && s[14..16] == clock[3..5];
    assert s[17..19] == clock[6..8] && s[20..23] == clock[9..12];
  }

  lemma {:induction false} DigitsValueOfPad(n: nat, width: nat)
    requires n < Power10(width)
    ensures DigitsValue(Pad(n, width)) == n
  {
    if width > 0 {
      var s := Pad(n, width);
      assert s[..|s| - 1] == Pad(n / 10, width - 1);
      DigitsValueOfPad(n / 10, width - 1);
    }
  }

  function Power10(n: nat): nat {
    if n == 0 then 1 else 10 * Power10(n - 1)
  }

  /** Reading back a formatted valid timestamp gives the timestamp, without
      error. */
  lemma ParseTimeFormatRoundTrip(t: Time)
    requires ValidTime(t)
    ensures ParseTime(FormatTime(t)) == Parsed(t, true)
  {
    DigitsValueOfPad(t.year, 4);
    DigitsValueOfPad(t.month, 2);
    DigitsValueOfPad(t.day, 2);
    DigitsValueOfPad(t.hour, 2);
    DigitsValueOfPad(t.minute, 2);
    DigitsValueOfPad(t.second, 2);
    DigitsValueOfPad(t.milli, 3);
  }

  // ----- booleans -----

  predicate CharIs(c: char, lower: char, upper: char) {
    c == lower || c == upper
  }

  /** The `TagBased` column: true exactly when the attribute is present and
      spells "true" in any mix of upper and lower case; absent reads false. */
  function TagBased(attrs: Attrs): (r: bool)
    ensures r <==> (
      && "TagBased" in attrs && |attrs["TagBased"]| == 4
      && CharIs(attrs["TagBased"][0], 't', 'T') && CharIs(attrs["TagBased"][1], 'r', 'R')
      && CharIs(attrs["TagBased"][2], 'u', 'U') && CharIs(attrs["TagBased"][3], 'e', 'E'))
  {
    if "TagBased" in attrs then
      var v := attrs["TagBased"];
      var l := Ascii.Lower(v);
      assert |l| == 4 ==> (l == "true" <==> l[0] == 't' && l[1] == 'r' && l[2] == 'u' && l[3] == 'e');
      l == "true"
    else false
  }
}
