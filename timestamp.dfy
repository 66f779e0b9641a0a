/**
 * Naive UTC timestamps and the one text format both programs share:
 * `strftime("%Y-%m-%d %H:%M:%S")` on the writing side and
 * `datetime.strptime(text, "%Y-%m-%d %H:%M:%S")` on the reading side.
 */
module Timestamp {
  import opened Base
  import opened Decimal

  /** A Python `datetime` without time zone: calendar fields plus microseconds. */
  datatype DateTime = DateTime(year: nat, month: nat, day: nat,
                               hour: nat, minute: nat, second: nat, microsecond: nat)

  predicate IsLeapYear(y: nat) { y % 4 == 0 && (y % 100 != 0 || y % 400 == 0) }

  function DaysInMonth(y: nat, m: nat): nat
  {
    if m == 2 then (if IsLeapYear(y) then 29 else 28)
    else if m == 4 || m == 6 || m == 9 || m == 11 then 30
    else 31
  }

  /** The values Python's `datetime` constructor accepts (`MINYEAR` is 1, `MAXYEAR` 9999). */
  predicate Valid(t: DateTime)
  {
    && 1 <= t.year <= 9999
    && 1 <= t.month <= 12
    && 1 <= t.day <= DaysInMonth(t.year, t.month)
    && t.hour < 24 && t.minute < 60 && t.second < 60
    && t.microsecond < 1000000
  }

  /** The same instant with the fractional second dropped, as the text format keeps it. */
  function WholeSeconds(t: DateTime): (r: DateTime)
    ensures Valid(t) ==> Valid(r)
  {
    t.(microsecond := 0)
  }

  /** `strftime("%Y-%m-%d %H:%M:%S")`: every field zero-padded, the microseconds dropped. */
  function Format(t: DateTime): (s: string)
    ensures |s| == 19
  {
    Padded(t.year, 4) + "-" + Padded(t.month, 2) + "-" + Padded(t.day, 2) + " "
    + Padded(t.hour, 2) + ":" + Padded(t.minute, 2) + ":" + Padded(t.second, 2)
  }

  /** The shape `YYYY-MM-DD HH:MM:SS`: separators in place, digits everywhere else. */
  predicate Canonical(s: string)
  {
    && |s| == 19
    && s[4] == '-' && s[7] == '-' && s[10] == ' ' && s[13] == ':' && s[16] == ':'
    && AllDigits(s[0..4]) && AllDigits(s[5..7]) && AllDigits(s[8..10])
    && AllDigits(s[11..13]) && AllDigits(s[14..16]) && AllDigits(s[17..19])
  }

  /**
   * `datetime.strptime(s, "%Y-%m-%d %H:%M:%S")` on zero-padded text: `None` where
   * Python raises `ValueError` (wrong shape, trailing text, or a field out of range
   * such as month 13 or 30 February).
   */
  function Parse(s: string): (r: Option<DateTime>)
    ensures r.Some? ==> Valid(r.value) && r.value.microsecond == 0
  {
    if !Canonical(s) then None
    else
      var t := DateTime(ValueOf(s[0..4]), ValueOf(s[5..7]), ValueOf(s[8..10]),
                        ValueOf(s[11..13]), ValueOf(s[14..16]), ValueOf(s[17..19]), 0);
      if Valid(t) then Some(t) else None
  }

  /** Where each field sits in the formatted text. */
  lemma FormatPieces(t: DateTime)
    ensures var s := Format(t);
      && s[0..4] == Padded(t.year, 4) && s[5..7] == Padded(t.month, 2)
      && s[8..10] == Padded(t.day, 2) && s[11..13] == Padded(t.hour, 2)
      && s[14..16] == Padded(t.minute, 2) && s[17..19] == Padded(t.second, 2)
      && s[4] == '-' && s[7] == '-' && s[10] == ' ' && s[13] == ':' && s[16] == ':'
  {
    var date := Padded(t.year, 4) + "-" + Padded(t.month, 2) + "-" + Padded(t.day, 2);
    var time := Padded(t.hour, 2) + ":" + Padded(t.minute, 2) + ":" + Padded(t.second, 2);
    assert Format(t) == date + " " + time;
    SlicesOfFields(Padded(t.year, 4), Padded(t.month, 2), Padded(t.day, 2), '-');
    SlicesOfFields(Padded(t.hour, 2), Padded(t.minute, 2), Padded(t.second, 2), ':');
    var s := Format(t);
    assert s[..10] == date && s[11..] == time;
    assert s[11..13] == time[0..2] && s[14..16] == time[3..5] && s[17..19] == time[6..8];
  }

  /** Three fields joined by one separator character, sliced back apart. */
  lemma SlicesOfFields(a: string, b: string, c: string, sep: char)
    ensures var j := a + [sep] + b + [sep] + c;
      && j[..|a|] == a && j[|a|] == sep
      && j[|a| + 1..|a| + 1 + |b|] == b && j[|a| + 1 + |b|] == sep
      && j[|a| + 2 + |b|..] == c
  {
  }

  /** A field written by `Padded` is all digits and reads back as its value. */
  lemma PaddedField(piece: string, n: nat, width: nat)
    requires piece == Padded(n, width) && n < Pow10(width)
    ensures AllDigits(piece) && ValueOf(piece) == n
  {
    ValueOfPadded(n, width);
  }

  /** A text laid out as `Format` lays out a valid time has the reader's shape and fields. */
  lemma LaidOutFields(s: string, t: DateTime)
    requires Valid(t) && |s| == 19
    requires s[0..4] == Padded(t.year, 4) && s[5..7] == Padded(t.month, 2)
    requires s[8..10] == Padded(t.day, 2) && s[11..13] == Padded(t.hour, 2)
    requires s[14..16] == Padded(t.minute, 2) && s[17..19] == Padded(t.second, 2)
    requires s[4] == '-' && s[7] == '-' && s[10] == ' ' && s[13] == ':' && s[16] == ':'
    ensures Canonical(s)
    ensures ValueOf(s[0..4]) == t.year && ValueOf(s[5..7]) == t.month && ValueOf(s[8..10]) == t.day
    ensures ValueOf(s[11..13]) == t.hour && ValueOf(s[14..16]) == t.minute && ValueOf(s[17..19]) == t.second
  {
    assert Pow10(2) == 100 && Pow10(4) == 10000;
    PaddedField(s[0..4], t.year, 4);
    PaddedField(s[5..7], t.month, 2);
    PaddedField(s[8..10], t.day, 2);
    PaddedField(s[11..13], t.hour, 2);
    PaddedField(s[14..16], t.minute, 2);
    PaddedField(s[17..19], t.second, 2);
  }

  /** The formatted text has the reader's shape, and each field reads back as its value. */
  lemma FormatFields(t: DateTime)
    requires Valid(t)
    ensures var s := Format(t);
      && Canonical(s)
      && ValueOf(s[0..4]) == t.year && ValueOf(s[5..7]) == t.month && ValueOf(s[8..10]) == t.day
      && ValueOf(s[11..13]) == t.hour && ValueOf(s[14..16]) == t.minute && ValueOf(s[17..19]) == t.second
  {
    FormatPieces(t);
    LaidOutFields(Format(t), t);
  }

  /** Writing a valid timestamp and reading it back loses only the microseconds. */
  lemma ParseFormat(t: DateTime)
    requires Valid(t)
    ensures Parse(Format(t)) == Some(WholeSeconds(t))
  {
    FormatFields(t);
  }

  /** A canonical text is its six digit fields joined by the fixed separators. */
  lemma CanonicalJoin(s: string)
    requires Canonical(s)
    ensures s == s[0..4] + "-" + s[5..7] + "-" + s[8..10] + " " + s[11..13] + ":" + s[14..16] + ":" + s[17..19]
  {
  }

  /** Every string the reader accepts is exactly what the writer produces for its result. */
  lemma FormatParse(s: string)
    requires Parse(s).Some?
    ensures Format(Parse(s).value) == s
  {
    var t := Parse(s).value;
    assert t.year == ValueOf(s[0..4]) && t.month == ValueOf(s[5..7]) && t.day == ValueOf(s[8..10]);
    assert t.hour == ValueOf(s[11..13]) && t.minute == ValueOf(s[14..16]) && t.second == ValueOf(s[17..19]);
    PaddedValueOf(s[0..4]);
    PaddedValueOf(s[5..7]);
    PaddedValueOf(s[8..10]);
    PaddedValueOf(s[11..13]);
    PaddedValueOf(s[14..16]);
    PaddedValueOf(s[17..19]);
    CanonicalJoin(s);
  }
}
