/**
 * Naive Python datetimes and the three textual forms the services use:
 * strftime('%Y-%m-%dT%H:%M:%S') (Processing's format_timestamp),
 * isoformat() and fromisoformat() (the stats file's last_updated), and
 * strptime with '%Y-%m-%dT%H:%M:%S' or '%Y-%m-%dT%H:%M:%S.%f' (Storage's
 * window queries).
 */
module Timestamps {
  import opened Wrappers

  /** A naive datetime: calendar fields down to the microsecond. */
  datatype DateTime = DateTime(year: int, month: int, day: int,
                               hour: int, minute: int, second: int, micro: int)

  predicate IsLeapYear(y: int) {
    y % 4 == 0 && (y % 100 != 0 || y % 400 == 0)
  }

  function DaysInMonth(year: int, month: int): int
    requires 1 <= month <= 12
  {
    if month == 2 then (if IsLeapYear(year) then 29 else 28)
    else if month == 4 || month == 6 || month == 9 || month == 11 then 30
    else 31
  }

  /** The ranges the datetime constructor accepts; anything else raises ValueError. */
  predicate Valid(t: DateTime) {
    && 1 <= t.year <= 9999
    && 1 <= t.month <= 12
    && 1 <= t.day <= DaysInMonth(t.year, t.month)
    && 0 <= t.hour < 24
    && 0 <= t.minute < 60
    && 0 <= t.second < 60
    && 0 <= t.micro < 1000000
  }

  /** The same instant with the microseconds dropped (what a seconds format keeps). */
  function Truncate(t: DateTime): (r: DateTime)
    ensures Valid(t) ==> Valid(r)
  {
    t.(micro := 0)
  }

  // ---------------------------------------------------------------- order

  function Fields(t: DateTime): seq<int> {
    [t.year, t.month, t.day, t.hour, t.minute, t.second, t.micro]
  }

  /** Lexicographic order on equally long sequences of integers. */
  predicate LexLess(a: seq<int>, b: seq<int>)
    requires |a| == |b|
  {
    |a| > 0 && (a[0] < b[0] || (a[0] == b[0] && LexLess(a[1..], b[1..])))
  }

  /** Python's `a < b` on datetimes: field by field, most significant first. */
  predicate Before(a: DateTime, b: DateTime) {
    LexLess(Fields(a), Fields(b))
  }

  lemma {:induction false} LexLessTransitive(a: seq<int>, b: seq<int>, c: seq<int>)
    requires |a| == |b| == |c|
    requires LexLess(a, b) && LexLess(b, c)
    ensures LexLess(a, c)
  {
    if a[0] == b[0] && b[0] == c[0] {
      LexLessTransitive(a[1..], b[1..], c[1..]);
    }
  }

  lemma {:induction false} LexLessIrreflexive(a: seq<int>)
    ensures !LexLess(a, a)
  {
    if |a| > 0 {
      LexLessIrreflexive(a[1..]);
    }
  }

  lemma {:induction false} LexLessTotal(a: seq<int>, b: seq<int>)
    requires |a| == |b|
    ensures a == b || LexLess(a, b) || LexLess(b, a)
  {
    if |a| > 0 && a[0] == b[0] {
      LexLessTotal(a[1..], b[1..]);
      if a[1..] == b[1..] {
        assert a == [a[0]] + a[1..] && b == [b[0]] + b[1..];
      }
    }
  }

  /** Datetime comparison is a strict total order. */
  lemma BeforeIsStrictTotalOrder(a: DateTime, b: DateTime, c: DateTime)
    ensures !Before(a, a)
    ensures a == b || Before(a, b) || Before(b, a)
    ensures Before(a, b) && Before(b, c) ==> Before(a, c)
  {
    LexLessIrreflexive(Fields(a));
    LexLessTotal(Fields(a), Fields(b));
    if Before(a, b) && Before(b, c) {
      LexLessTransitive(Fields(a), Fields(b), Fields(c));
    }
  }

  // --------------------------------------------------------------- digits

  predicate IsDigit(c: char) {
    '0' <= c <= '9'
  }

  predicate AllDigits(s: string) {
    forall i :: 0 <= i < |s| ==> IsDigit(s[i])
  }

  function DigitValue(c: char): (d: int)
    requires IsDigit(c)
    ensures 0 <= d < 10
  {
    c as int - '0' as int
  }

  function DigitChar(d: int): (c: char)
    requires 0 <= d < 10
    ensures IsDigit(c) && DigitValue(c) == d
  {
    (d + '0' as int) as char
  }

  function Pow10(n: nat): (p: nat)
    ensures p >= 1
  {
    if n == 0 then 1 else 10 * Pow10(n - 1)
  }

  /** The number a string of decimal digits denotes (Python's int() on ASCII digits). */
  function Value(s: string): (v: nat)
    requires AllDigits(s)
    ensures v < Pow10(|s|)
  {
    if s == [] then 0 else 10 * Value(s[..|s| - 1]) + DigitValue(s[|s| - 1])
  }

  /** `n` written with exactly `width` digits, zero-padded on the left. */
  function Padded(n: nat, width: nat): (s: string)
    requires n < Pow10(width)
    ensures |s| == width && AllDigits(s)
  {
    if width == 0 then [] else Padded(n / 10, width - 1) + [DigitChar(n % 10)]
  }

  /** Reading back a zero-padded number gives the number. */
  lemma {:induction false} ValueOfPadded(n: nat, width: nat)
    requires n < Pow10(width)
    ensures Value(Padded(n, width)) == n
  {
    if width > 0 {
      var s := Padded(n, width);
      ValueOfPadded(n / 10, width - 1);
      assert s[..|s| - 1] == Padded(n / 10, width - 1);
    }
  }

  // ----------------------------------------------------------- formatting

  /** strftime('%Y-%m-%dT%H:%M:%S'): Processing's format_timestamp. */
  function FormatSeconds(t: DateTime): (s: string)
    requires Valid(t)
    ensures |s| == 19
  {
    Padded(t.year, 4) + "-" + Padded(t.month, 2) + "-" + Padded(t.day, 2) + "T"
      + Padded(t.hour, 2) + ":" + Padded(t.minute, 2) + ":" + Padded(t.second, 2)
  }

  /** isoformat(): the seconds form, followed by '.ffffff' unless the microseconds are 0. */
  function IsoFormat(t: DateTime): (s: string)
    requires Valid(t)
    ensures |s| == (if t.micro == 0 then 19 else 26)
    ensures s[..19] == FormatSeconds(t)
    ensures t.micro != 0 ==> s[19] == '.'
  {
    FormatSeconds(t) + (if t.micro == 0 then "" else "." + Padded(t.micro, 6))
  }

  /** The formatted seconds form ignores the microseconds. */
  lemma FormatSecondsIgnoresMicros(t: DateTime)
    requires Valid(t)
    ensures FormatSeconds(Truncate(t)) == FormatSeconds(t)
  {
  }

  /** format_timestamp's output is isoformat() of the same instant without its microseconds. */
  lemma FormatSecondsIsIsoFormat(t: DateTime)
    requires Valid(t)
    ensures IsoFormat(Truncate(t)) == FormatSeconds(t)
  {
    FormatSecondsIgnoresMicros(t);
  }

  // --------------------------------------------------------- fromisoformat

  /** True when s[i..i+n] exists and consists of digits. */
  predicate DigitsAt(s: string, i: nat, n: nat) {
    i + n <= |s| && AllDigits(s[i..i + n])
  }

  function ValueAt(s: string, i: nat, n: nat): nat
    requires DigitsAt(s, i, n)
  {
    Value(s[i..i + n])
  }

  /** The fixed layout 'YYYY-MM-DD?HH:MM:SS' (any separator character at index 10). */
  predicate IsoLayout(s: string) {
    && |s| >= 19
    && DigitsAt(s, 0, 4) && s[4] == '-' && DigitsAt(s, 5, 2) && s[7] == '-' && DigitsAt(s, 8, 2)
    && DigitsAt(s, 11, 2) && s[13] == ':' && DigitsAt(s, 14, 2) && s[16] == ':' && DigitsAt(s, 17, 2)
  }

  /** The date and time fields of a string in IsoLayout, with no microseconds. */
  function IsoSeconds(s: string): DateTime
    requires IsoLayout(s)
  {
    DateTime(ValueAt(s, 0, 4), ValueAt(s, 5, 2), ValueAt(s, 8, 2),
             ValueAt(s, 11, 2), ValueAt(s, 14, 2), ValueAt(s, 17, 2), 0)
  }

  /** The microseconds after the seconds: none, or '.fff' or '.ffffff'. */
  function IsoMicro(s: string): Option<nat>
    requires |s| >= 19
  {
    if |s| == 19 then Some(0)
    else if (|s| == 23 || |s| == 26) && s[19] == '.' && DigitsAt(s, 20, |s| - 20)
    then Some(ValueAt(s, 20, |s| - 20) * Pow10(26 - |s|))
    else None
  }

  /**
   * datetime.fromisoformat on the forms isoformat() writes:
   * 'YYYY-MM-DD?HH:MM:SS' optionally followed by '.fff' or '.ffffff'.
   */
  function ParseIso(s: string): (r: Option<DateTime>)
    ensures r.Some? ==> Valid(r.value)
  {
    if !IsoLayout(s) then None
    else
      var micro :- IsoMicro(s);
      var t := IsoSeconds(s).(micro := micro);
      if Valid(t) then Some(t) else None
  }

  /** Whatever follows the first 19 characters does not change the fields read from them. */
  lemma IsoLayoutExtended(base: string, rest: string)
    requires |base| == 19 && IsoLayout(base)
    ensures IsoLayout(base + rest) && IsoSeconds(base + rest) == IsoSeconds(base)
  {
    var s := base + rest;
    assert s[0..4] == base[0..4];
    assert s[5..7] == base[5..7];
    assert s[8..10] == base[8..10];
    assert s[11..13] == base[11..13];
    assert s[14..16] == base[14..16];
    assert s[17..19] == base[17..19];
  }

  /** The digits of a formatted timestamp, field by field. */
  lemma FormatSecondsLayout(t: DateTime)
    requires Valid(t)
    ensures var s := FormatSeconds(t);
      && s[0..4] == Padded(t.year, 4) && s[4] == '-'
      && s[5..7] == Padded(t.month, 2) && s[7] == '-'
      && s[8..10] == Padded(t.day, 2) && s[10] == 'T'
      && s[11..13] == Padded(t.hour, 2) && s[13] == ':'
      && s[14..16] == Padded(t.minute, 2) && s[16] == ':'
      && s[17..19] == Padded(t.second, 2)
  {
  }

  /** The fields of a formatted timestamp read back as the fields it was made from. */
  lemma {:induction false} FormatSecondsFields(t: DateTime)
    requires Valid(t)
    ensures var s := FormatSeconds(t);
      && IsoLayout(s)
      && ValueAt(s, 0, 4) == t.year && ValueAt(s, 5, 2) == t.month && ValueAt(s, 8, 2) == t.day
      && ValueAt(s, 11, 2) == t.hour && ValueAt(s, 14, 2) == t.minute && ValueAt(s, 17, 2) == t.second
  {
    FormatSecondsLayout(t);
    ValueOfPadded(t.year, 4);
    ValueOfPadded(t.month, 2);
    ValueOfPadded(t.day, 2);
    ValueOfPadded(t.hour, 2);
    ValueOfPadded(t.minute, 2);
    ValueOfPadded(t.second, 2);
  }

  /** The watermark written as format_timestamp(now) reads back as now, to the second. */
  lemma {:induction false} ParseIsoFormatSeconds(t: DateTime)
    requires Valid(t)
    ensures ParseIso(FormatSeconds(t)) == Some(Truncate(t))
  {
    FormatSecondsFields(t);
  }

  /** isoformat() with microseconds: the seconds form, a dot and six digits. */
  lemma IsoFormatWithMicros(t: DateTime)
    requires Valid(t) && t.micro != 0
    ensures var s := IsoFormat(t);
      && |s| == 26 && s[..19] == FormatSeconds(t) && s[19] == '.' && s[20..] == Padded(t.micro, 6)
  {
    var base, tail := FormatSeconds(t), "." + Padded(t.micro, 6);
    assert IsoFormat(t) == base + tail;
    assert (base + tail)[20..] == tail[1..];
  }

  /** Six zero-padded digits after the dot are read as that many microseconds. */
  lemma IsoMicroPadded(s: string, micro: nat)
    requires micro < 1000000 && |s| == 26 && s[19] == '.' && s[20..] == Padded(micro, 6)
    ensures IsoMicro(s) == Some(micro)
  {
    assert s[20..26] == s[20..];
    ValueOfPadded(micro, 6);
  }

  /** fromisoformat reads the microseconds isoformat() appends. */
  lemma {:induction false} ParseIsoWithMicros(t: DateTime)
    requires Valid(t) && t.micro != 0
    ensures ParseIso(IsoFormat(t)) == Some(t)
  {
    var s := IsoFormat(t);
    IsoFormatWithMicros(t);
    FormatSecondsFields(t);
    assert s == s[..19] + s[19..];
    IsoLayoutExtended(s[..19], s[19..]);
    IsoMicroPadded(s, t.micro);
  }

  /** fromisoformat inverts isoformat. */
  lemma {:induction false} ParseIsoIsoFormat(t: DateTime)
    requires Valid(t)
    ensures ParseIso(IsoFormat(t)) == Some(t)
  {
    if t.micro != 0 {
      ParseIsoWithMicros(t);
    } else {
      ParseIsoFormatSeconds(t);
      assert IsoFormat(t) == FormatSeconds(t) && Truncate(t) == t;
    }
  }

  // -------------------------------------------------------------- strptime

  /**
   * One numeric directive of CPython's _strptime: a two-digit alternative whose
   * value lies in [lo, hi] is tried first, then a single digit of at least
   * `oneLo`; '%d' also accepts a space followed by a digit 1-9.
   *   %m: 1[0-2]|0[1-9]|[1-9]              MatchNumber(s, i, 1, 12, 1, false)
   *   %d: 3[01]|[12]\d|0[1-9]|[1-9]| [1-9]  MatchNumber(s, i, 1, 31, 1, true)
   *   %H: 2[0-3]|[0-1]\d|\d                 MatchNumber(s, i, 0, 23, 0, false)
   *   %M: [0-5]\d|\d                        MatchNumber(s, i, 0, 59, 0, false)
   *   %S: 6[0-1]|[0-5]\d|\d                 MatchNumber(s, i, 0, 61, 0, false)
   * The result is the value read and the position after it.
   */
  function MatchNumber(s: string, i: nat, lo: nat, hi: nat, oneLo: nat, spaced: bool): (r: Option<(nat, nat)>)
    ensures r.Some? ==> i < r.value.1 <= |s| && r.value.1 <= i + 2
    ensures r.Some? ==> IsDigit(s[r.value.1 - 1])
  {
    if DigitsAt(s, i, 2) && lo <= ValueAt(s, i, 2) <= hi then Some((ValueAt(s, i, 2), i + 2))
    else if i < |s| && IsDigit(s[i]) && oneLo <= DigitValue(s[i]) then Some((DigitValue(s[i]), i + 1))
    else if spaced && i + 1 < |s| && s[i] == ' ' && IsDigit(s[i + 1]) && DigitValue(s[i + 1]) >= 1
    then Some((DigitValue(s[i + 1]), i + 2))
    else None
  }

  /** '%Y': exactly four digits. */
  function MatchYear(s: string, i: nat): (r: Option<(nat, nat)>)
    ensures r.Some? ==> r.value.1 == i + 4 <= |s| && IsDigit(s[i])
  {
    if DigitsAt(s, i, 4) then Some((ValueAt(s, i, 4), i + 4)) else None
  }

  /** A literal character of the format; the pattern is compiled with IGNORECASE, so 'T' also matches 't'. */
  function MatchLiteral(s: string, i: nat, c: char): (r: Option<nat>)
    ensures r.Some? ==> r.value == i + 1 <= |s|
  {
    if i < |s| && (s[i] == c || (c == 'T' && s[i] == 't')) then Some(i + 1) else None
  }

  /** The number of digits at s[i..], at most `limit`. */
  function LeadingDigits(s: string, i: nat, limit: nat): (n: nat)
    requires i <= |s|
    ensures n <= limit && DigitsAt(s, i, n)
    ensures i + n < |s| && n < limit ==> !IsDigit(s[i + n])
    decreases limit
  {
    if limit > 0 && i < |s| && IsDigit(s[i]) then
      var n := 1 + LeadingDigits(s, i + 1, limit - 1);
      assert s[i..i + n] == [s[i]] + s[i + 1..i + n];
      n
    else 0
  }

  lemma {:induction false} Pow10Add(a: nat, b: nat)
    ensures Pow10(a + b) == Pow10(a) * Pow10(b)
  {
    if a > 0 {
      Pow10Add(a - 1, b);
    }
  }

  /** A fraction of n digits, scaled to six, stays below a second. */
  lemma FractionBelowMillion(v: nat, n: nat)
    requires n <= 6 && v < Pow10(n)
    ensures v * Pow10(6 - n) < 1000000
  {
    Pow10Add(n, 6 - n);
    var q := Pow10(6 - n);
    assert Pow10(n) * q - v * q == (Pow10(n) - v) * q;
  }

  /** '%f': one to six digits, greedily, right-padded with zeros to microseconds. */
  function MatchFraction(s: string, i: nat): (r: Option<(nat, nat)>)
    requires i <= |s|
    ensures r.Some? ==> i < r.value.1 <= |s| && r.value.0 < 1000000
  {
    var n := LeadingDigits(s, i, 6);
    if n == 0 then None
    else
      var v := ValueAt(s, i, n);
      FractionBelowMillion(v, n);
      Some((v * Pow10(6 - n), i + n))
  }

  /**
   * '%Y-%m-%dT%H:%M:%S' at the start of `s`: the fields read (no
   * microseconds) and the position after them.
   */
  function MatchSeconds(s: string): (r: Option<(DateTime, nat)>)
    ensures r.Some? ==> 0 < r.value.1 <= |s| && r.value.0.micro == 0
    ensures r.Some? ==> IsDigit(s[0]) && IsDigit(s[r.value.1 - 1])
  {
    var year :- MatchYear(s, 0);
    var p1 :- MatchLiteral(s, year.1, '-');
    var month :- MatchNumber(s, p1, 1, 12, 1, false);
    var p2 :- MatchLiteral(s, month.1, '-');
    var day :- MatchNumber(s, p2, 1, 31, 1, true);
    var p3 :- MatchLiteral(s, day.1, 'T');
    var hour :- MatchNumber(s, p3, 0, 23, 0, false);
    var p4 :- MatchLiteral(s, hour.1, ':');
    var minute :- MatchNumber(s, p4, 0, 59, 0, false);
    var p5 :- MatchLiteral(s, minute.1, ':');
    var second :- MatchNumber(s, p5, 0, 61, 0, false);
    Some((DateTime(year.0, month.0, day.0, hour.0, minute.0, second.0, 0), second.1))
  }

  /**
   * datetime.strptime(s, '%Y-%m-%dT%H:%M:%S'), or with '.%f' appended when
   * `withFraction`. None stands for the ValueError strptime raises: no match,
   * unconverted data left over, or fields the datetime constructor rejects.
   */
  function Strptime(s: string, withFraction: bool): (r: Option<DateTime>)
    ensures r.Some? ==> Valid(r.value)
    ensures r.Some? && !withFraction ==> r.value.micro == 0
  {
    var fields :- MatchSeconds(s);
    var fraction :- if withFraction then
                      (var p :- MatchLiteral(s, fields.1, '.'); MatchFraction(s, p))
                    else Some((0, fields.1));
    var t := fields.0.(micro := fraction.0);
    if fraction.1 == |s| && Valid(t) then Some(t) else None
  }

  /** Text the plain format reads in full leaves no '.' for the fractional format. */
  lemma StrptimeSecondsRejectsFraction(s: string)
    requires Strptime(s, false).Some?
    ensures Strptime(s, true).None?
  {
    var fields := MatchSeconds(s).value;
    assert fields.1 == |s|;
    assert MatchLiteral(s, fields.1, '.').None?;
  }

  /** A zero-padded two-digit field in range is read by the two-digit alternative. */
  lemma MatchNumberPadded(s: string, i: nat, v: nat, lo: nat, hi: nat, oneLo: nat, spaced: bool)
    requires lo <= v <= hi && v < 100
    requires i + 2 <= |s| && s[i..i + 2] == Padded(v, 2)
    ensures MatchNumber(s, i, lo, hi, oneLo, spaced) == Some((v, i + 2))
  {
    ValueOfPadded(v, 2);
  }

  /** Four zero-padded digits are read by '%Y' as their value. */
  lemma MatchYearPadded(s: string, i: nat, v: nat)
    requires v < 10000 && i + 4 <= |s| && s[i..i + 4] == Padded(v, 4)
    ensures MatchYear(s, i) == Some((v, i + 4))
  {
    ValueOfPadded(v, 4);
  }

  /** Text laid out field by field as format_timestamp writes it is read back to the second. */
  lemma {:induction false} MatchSecondsLaidOut(s: string, t: DateTime)
    requires Valid(t) && |s| >= 19
    requires s[0..4] == Padded(t.year, 4) && s[4] == '-' && s[5..7] == Padded(t.month, 2) && s[7] == '-'
    requires s[8..10] == Padded(t.day, 2) && s[10] == 'T' && s[11..13] == Padded(t.hour, 2) && s[13] == ':'
    requires s[14..16] == Padded(t.minute, 2) && s[16] == ':' && s[17..19] == Padded(t.second, 2)
    ensures MatchSeconds(s) == Some((Truncate(t), 19))
  {
    MatchYearPadded(s, 0, t.year);
    MatchNumberPadded(s, 5, t.month, 1, 12, 1, false);
    MatchNumberPadded(s, 8, t.day, 1, 31, 1, true);
    MatchNumberPadded(s, 11, t.hour, 0, 23, 0, false);
    MatchNumberPadded(s, 14, t.minute, 0, 59, 0, false);
    MatchNumberPadded(s, 17, t.second, 0, 61, 0, false);
  }

  /** Slices and characters inside a prefix of `s` are those of the prefix. */
  lemma PrefixSlices(s: string, prefix: string)
    requires |prefix| <= |s| && s[..|prefix|] == prefix
    ensures forall i, j :: 0 <= i <= j <= |prefix| ==> s[i..j] == prefix[i..j]
    ensures forall i :: 0 <= i < |prefix| ==> s[i] == prefix[i]
  {
    forall i, j | 0 <= i <= j <= |prefix|
      ensures s[i..j] == prefix[i..j]
    {
      assert forall k :: 0 <= k < j - i ==> s[i..j][k] == prefix[i..j][k];
    }
  }

  /** A formatted timestamp at the start of `s` is read back to the second. */
  lemma {:induction false} MatchSecondsFormatted(s: string, t: DateTime)
    requires Valid(t) && |s| >= 19 && s[..19] == FormatSeconds(t)
    ensures MatchSeconds(s) == Some((Truncate(t), 19))
  {
    FormatSecondsLayout(t);
    PrefixSlices(s, FormatSeconds(t));
    MatchSecondsLaidOut(s, t);
  }

  /** Storage parses format_timestamp's output back to the same second. */
  lemma {:induction false} StrptimeFormatSeconds(t: DateTime)
    requires Valid(t)
    ensures Strptime(FormatSeconds(t), false) == Some(Truncate(t))
  {
    var s := FormatSeconds(t);
    assert s[..19] == s;
    MatchSecondsFormatted(s, t);
  }

  /** ... and the fractional format rejects it, so the fallback format is the one that applies. */
  lemma {:induction false} StrptimeFractionRejectsSeconds(t: DateTime)
    requires Valid(t)
    ensures Strptime(FormatSeconds(t), true).None?
  {
    var s := FormatSeconds(t);
    assert s[..19] == s;
    MatchSecondsFormatted(s, t);
    assert MatchLiteral(s, 19, '.') == None;
  }

  /** Six zero-padded digits ending the text are read as that many microseconds. */
  lemma {:induction false} MatchFractionPadded(s: string, i: nat, micro: nat)
    requires micro < 1000000 && |s| == i + 6 && s[i..] == Padded(micro, 6)
    ensures MatchFraction(s, i) == Some((micro, i + 6))
  {
    assert s[i..i + 6] == s[i..];
    ValueOfPadded(micro, 6);
  }

  /** The fractional format reads isoformat()'s output back exactly when it carries microseconds. */
  lemma {:induction false} StrptimeIsoFormat(t: DateTime)
    requires Valid(t) && t.micro != 0
    ensures Strptime(IsoFormat(t), true) == Some(t)
  {
    var s := IsoFormat(t);
    IsoFormatWithMicros(t);
    MatchSecondsFormatted(s, t);
    assert MatchLiteral(s, 19, '.') == Some(20);
    MatchFractionPadded(s, 20, t.micro);
  }

  // ----------------------------------------------------------------- strip

  /** str.isspace() for one character (Python's Unicode whitespace). */
  predicate IsSpace(c: char) {
    var k := c as int;
    || (0x09 <= k <= 0x0d) || (0x1c <= k <= 0x20) || k == 0x85 || k == 0xa0 || k == 0x1680
    || (0x2000 <= k <= 0x200a) || k == 0x2028 || k == 0x2029 || k == 0x202f || k == 0x205f || k == 0x3000
  }

  /** str.lstrip(): drops the whitespace at the start. */
  function StripStart(s: string): (r: string)
    ensures |r| <= |s| && r == s[|s| - |r|..]
    ensures forall i :: 0 <= i < |s| - |r| ==> IsSpace(s[i])
    ensures r != [] ==> !IsSpace(r[0])
  {
    if s != [] && IsSpace(s[0]) then StripStart(s[1..]) else s
  }

  /** str.rstrip(): drops the whitespace at the end. */
  function StripEnd(s: string): (r: string)
    ensures |r| <= |s| && r == s[..|r|]
    ensures forall i :: |r| <= i < |s| ==> IsSpace(s[i])
    ensures r != [] ==> !IsSpace(r[|r| - 1])
  {
    if s != [] && IsSpace(s[|s| - 1]) then StripEnd(s[..|s| - 1]) else s
  }

  /** str.strip(): drops the whitespace at both ends. */
  function Strip(s: string): (r: string)
    ensures |r| <= |s|
    ensures r != [] ==> !IsSpace(r[0]) && !IsSpace(r[|r| - 1])
    ensures r == [] <==> forall i :: 0 <= i < |s| ==> IsSpace(s[i])
  {
    StripEnd(StripStart(s))
  }

  /** Text without surrounding whitespace is left as it is. */
  lemma StripKeepsTrimmed(s: string)
    requires s == [] || (!IsSpace(s[0]) && !IsSpace(s[|s| - 1]))
    ensures Strip(s) == s
  {
  }

  /** A leading space is dropped like any other leading whitespace. */
  lemma StripDropsLeadingSpace(s: string)
    ensures Strip(" " + s) == Strip(s)
  {
    assert (" " + s)[1..] == s;
  }
}
