/** Naive date-times as integer tuples, with the three textual forms the core
    reads and writes: `strftime("%Y%m%dT%H%M%SZ")` for an `UNTIL` value,
    `strptime` of that form and of `%Y%m%d`, and `str()` of a date-time. */
module Timestamps {
  import opened Wrappers
  import opened Text

  datatype DateTime = DateTime(year: nat, month: nat, day: nat, hour: nat, minute: nat, second: nat)

  predicate IsLeapYear(y: nat) {
    y % 4 == 0 && (y % 100 != 0 || y % 400 == 0)
  }

  function DaysInMonth(y: nat, m: nat): nat
    requires 1 <= m <= 12
  {
    if m == 2 then (if IsLeapYear(y) then 29 else 28)
    else if m == 4 || m == 6 || m == 9 || m == 11 then 30
    else 31
  }

  /** The values Python's `datetime` constructor accepts (no microseconds, no time zone). */
  predicate Valid(d: DateTime) {
    && 1 <= d.year <= 9999
    && 1 <= d.month <= 12
    && 1 <= d.day <= DaysInMonth(d.year, d.month)
    && d.hour < 24 && d.minute < 60 && d.second < 60
  }

  /** The last `width` decimal digits of `n`, zero-padded. */
  function Pad(n: nat, width: nat): (s: string)
    ensures |s| == width && AllDigits(s)
  {
    if width == 0 then [] else Pad(n / 10, width - 1) + [DigitChar(n % 10)]
  }

  function Power10(k: nat): nat {
    if k == 0 then 1 else 10 * Power10(k - 1)
  }

  lemma {:induction false} PadValue(n: nat, width: nat)
    requires n < Power10(width)
    ensures DigitsValue(Pad(n, width)) == n
  {
    if width > 0 {
      var s := Pad(n, width);
      assert s[..|s| - 1] == Pad(n / 10, width - 1);
      PadValue(n / 10, width - 1);
    }
  }

  /** `d.strftime("%Y%m%dT%H%M%SZ")`. */
  function FormatUtc(d: DateTime): (s: string)
    ensures |s| == 16
  {
    Pad(d.year, 4) + Pad(d.month, 2) + Pad(d.day, 2) + "T"
    + Pad(d.hour, 2) + Pad(d.minute, 2) + Pad(d.second, 2) + "Z"
  }

  /** `datetime.strptime(s, "%Y%m%dT%H%M%SZ")` on the zero-padded form; `None`
      where it raises `ValueError`. `strptime` matches the literal letters of
      the format without regard to case. */
  function ParseUtc(s: string): Option<DateTime>
  {
    if && |s| == 16 && (s[8] == 'T' || s[8] == 't') && (s[15] == 'Z' || s[15] == 'z')
       && AllDigits(s[0..4]) && AllDigits(s[4..6]) && AllDigits(s[6..8])
       && AllDigits(s[9..11]) && AllDigits(s[11..13]) && AllDigits(s[13..15])
    then
      var d := DateTime(DigitsValue(s[0..4]), DigitsValue(s[4..6]), DigitsValue(s[6..8]),
                        DigitsValue(s[9..11]), DigitsValue(s[11..13]), DigitsValue(s[13..15]));
      if Valid(d) then Some(d) else None
    else
      None
  }

  /** `datetime.strptime(s, "%Y%m%d")` on the zero-padded form: midnight of that day. */
  function ParseDate(s: string): Option<DateTime>
  {
    if |s| == 8 && AllDigits(s[0..4]) && AllDigits(s[4..6]) && AllDigits(s[6..8]) then
      var d := DateTime(DigitsValue(s[0..4]), DigitsValue(s[4..6]), DigitsValue(s[6..8]), 0, 0, 0);
      if Valid(d) then Some(d) else None
    else
      None
  }

  /** Reading back what `FormatUtc` wrote gives the same date-time. */
  lemma UtcRoundTrip(d: DateTime)
    requires Valid(d)
    ensures ParseUtc(FormatUtc(d)) == Some(d)
  {
    var s := FormatUtc(d);
    assert s[8 := 'T'][15 := 'Z'] == s;
    UtcAnyCase(d, 'T', 'Z');
  }

  /** The same holds with either letter in lower case, as in `...T120000z`. */
  lemma UtcAnyCase(d: DateTime, t: char, z: char)
    requires Valid(d) && (t == 'T' || t == 't') && (z == 'Z' || z == 'z')
    ensures ParseUtc(FormatUtc(d)[8 := t][15 := z]) == Some(d)
  {
    var s := FormatUtc(d)[8 := t][15 := z];
    assert s[0..4] == Pad(d.year, 4);
    assert s[4..6] == Pad(d.month, 2);
    assert s[6..8] == Pad(d.day, 2);
    assert s[9..11] == Pad(d.hour, 2);
    assert s[11..13] == Pad(d.minute, 2);
    assert s[13..15] == Pad(d.second, 2);
    assert Power10(2) == 100 && Power10(4) == 10000;
    PadValue(d.year, 4);
    PadValue(d.month, 2);
    PadValue(d.day, 2);
    PadValue(d.hour, 2);
    PadValue(d.minute, 2);
    PadValue(d.second, 2);
  }

  /** `str(d)`: `YYYY-MM-DD HH:MM:SS`. */
  function Show(d: DateTime): string
  {
    Pad(d.year, 4) + "-" + Pad(d.month, 2) + "-" + Pad(d.day, 2) + " "
    + Pad(d.hour, 2) + ":" + Pad(d.minute, 2) + ":" + Pad(d.second, 2)
  }
}
