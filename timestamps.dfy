/**
 * The timestamp of an access-log line, "dd/MMM/yyyy:HH:mm:ss Z" with English
 * month abbreviations, read into a LocalDateTime. A LocalDateTime is
 * represented by its second on the local time line: the number of seconds
 * from 1970-01-01T00:00:00, with no time zone attached.
 */
module Timestamps {
  import opened Outcomes
  import opened Text

  const MonthNames: seq<string> :=
    ["Jan", "Feb", "Mar", "Apr", "May", "Jun", "Jul", "Aug", "Sep", "Oct", "Nov", "Dec"]

  predicate IsLeapYear(y: int) {
    y % 4 == 0 && (y % 100 != 0 || y % 400 == 0)
  }

  function MonthLength(y: int, m: int): (n: int)
    requires 1 <= m <= 12
    ensures 28 <= n <= 31
  {
    if m == 2 then (if IsLeapYear(y) then 29 else 28)
    else if m == 4 || m == 6 || m == 9 || m == 11 then 30
    else 31
  }

  /** The number of days from 1970-01-01 to the given date of the proleptic Gregorian calendar. */
  function EpochDay(y: int, m: int, d: int): int
    requires 1 <= m <= 12
  {
    var y' := if m <= 2 then y - 1 else y;
    var era := y' / 400;
    var yearOfEra := y' - era * 400;
    var dayOfYear := (153 * (if m > 2 then m - 3 else m + 9) + 2) / 5 + d - 1;
    var dayOfEra := yearOfEra * 365 + yearOfEra / 4 - yearOfEra / 100 + dayOfYear;
    era * 146097 + dayOfEra - 719468
  }

  /** The second on the local time line of a date and time of day. */
  function LocalSecond(y: int, m: int, d: int, hour: int, minute: int, second: int): int
    requires 1 <= m <= 12
  {
    EpochDay(y, m, d) * 86400 + hour * 3600 + minute * 60 + second
  }

  /**
   * LocalDateTime.MAX, +999999999-12-31T23:59:59.999999999, by its whole
   * second (the 999999999 nanoseconds are accounted for where spans are taken).
   */
  const LocalDateTimeMax: int := 31_556_889_832_780_799

  /** LocalDateTime.MIN, -999999999-01-01T00:00:00. */
  const LocalDateTimeMin: int := -31_557_014_135_596_800

  /** The two constants are the seconds of those dates and times. */
  lemma LocalDateTimeLimits()
    ensures LocalDateTimeMax == LocalSecond(999_999_999, 12, 31, 23, 59, 59)
    ensures LocalDateTimeMin == LocalSecond(-999_999_999, 1, 1, 0, 0, 0)
  {
    assert 999_999_999 / 400 == 2_499_999 && 399 / 4 == 99 && 399 / 100 == 3 && 1379 / 5 == 275;
    assert EpochDay(999_999_999, 12, 31) == 365_241_780_471;
    assert -1_000_000_000 / 400 == -2_500_000 && 0 / 4 == 0 && 0 / 100 == 0 && 1532 / 5 == 306;
    assert EpochDay(-999_999_999, 1, 1) == -365_243_219_162;
  }

  /** The value of the two decimal digits at i and i + 1. */
  function TwoDigitsAt(s: string, i: nat): (n: nat)
    requires i + 1 < |s| && IsDigit(s[i]) && IsDigit(s[i + 1])
    ensures n < 100
  {
    DigitValue(s[i]) * 10 + DigitValue(s[i + 1])
  }

  /** The month number (1 to 12) of an English month abbreviation; the match is case-sensitive. */
  function MonthNumber(name: string): (r: Option<int>)
    ensures r.Some? ==> 1 <= r.value <= 12 && MonthNames[r.value - 1] == name
    ensures r.None? ==> name !in MonthNames
  {
    MonthFrom(name, 0)
  }

  function MonthFrom(name: string, k: nat): (r: Option<int>)
    requires k <= 12
    decreases 12 - k
    ensures r.Some? ==> k < r.value <= 12 && MonthNames[r.value - 1] == name
    ensures r.None? ==> forall j :: k <= j < 12 ==> MonthNames[j] != name
  {
    if k == 12 then None
    else if MonthNames[k] == name then Some(k + 1)
    else MonthFrom(name, k + 1)
  }

  /** The fixed-width skeleton of "dd/MMM/yyyy:HH:mm:ss +HHMM": separators and digit positions. */
  predicate HasTimestampShape(s: string) {
    && |s| == 26
    && s[2] == '/' && s[6] == '/' && s[11] == ':' && s[14] == ':' && s[17] == ':' && s[20] == ' '
    && (s[21] == '+' || s[21] == '-')
    && DigitPairAt(s, 0) && DigitPairAt(s, 7) && DigitPairAt(s, 9)
    && DigitPairAt(s, 12) && DigitPairAt(s, 15) && DigitPairAt(s, 18)
    && DigitPairAt(s, 22) && DigitPairAt(s, 24)
  }

  /** Two decimal digits at i and i + 1. */
  predicate DigitPairAt(s: string, i: nat)
    requires i + 1 < |s|
  {
    IsDigit(s[i]) && IsDigit(s[i + 1])
  }

  /** The field values a formatter in smart resolving mode accepts. */
  predicate ValidFields(year: int, day: int, hour: int, minute: int, second: int,
                        offsetHours: int, offsetMinutes: int) {
    && 1 <= year
    && 1 <= day <= 31
    && minute <= 59 && second <= 59
    && (hour <= 23 || (hour == 24 && minute == 0 && second == 0))
    && offsetMinutes <= 59 && offsetHours * 60 + offsetMinutes <= 18 * 60
  }

  /**
   * LocalDateTime.parse with the pattern "dd/MMM/yyyy:HH:mm:ss Z" and the US
   * locale. None stands for DateTimeParseException. The resolver is the
   * default smart one: a day past the end of its month is moved back to the
   * month's last day, and 24:00:00 is midnight of the next day. The offset
   * is checked and then dropped.
   */
  function ParseTimestamp(s: string): (r: Option<int>)
    ensures r.Some? ==> HasTimestampShape(s) && MonthNumber([s[3], s[4], s[5]]).Some?
    ensures r.Some? ==> 1 <= TwoDigitsAt(s, 0) <= 31 && 1 <= TwoDigitsAt(s, 7) * 100 + TwoDigitsAt(s, 9)
  {
    if !HasTimestampShape(s) then None
    else
      var month := MonthNumber([s[3], s[4], s[5]]);
      var day, year := TwoDigitsAt(s, 0), TwoDigitsAt(s, 7) * 100 + TwoDigitsAt(s, 9);
      var hour, minute, second := TwoDigitsAt(s, 12), TwoDigitsAt(s, 15), TwoDigitsAt(s, 18);
      if month.None? || !ValidFields(year, day, hour, minute, second, TwoDigitsAt(s, 22), TwoDigitsAt(s, 24))
      then None
      else
        var clampedDay := if day <= MonthLength(year, month.value) then day else MonthLength(year, month.value);
        Some(LocalSecond(year, month.value, clampedDay, hour, minute, second))
  }

  /** The fields a timestamp is written from: a date, a time of day and an offset. */
  datatype TimestampFields = TimestampFields(
    year: int, month: int, day: int, hour: int, minute: int, second: int,
    negativeOffset: bool, offsetHours: int, offsetMinutes: int)

  /**
   * Fields the smart resolver accepts (a day up to 31 in any month, 24:00:00
   * included, an offset of at most 18 hours) with a year of four digits.
   */
  predicate Writable(f: TimestampFields) {
    && 1 <= f.month <= 12 && f.year <= 9999
    && 0 <= f.hour && 0 <= f.minute && 0 <= f.second && 0 <= f.offsetHours && 0 <= f.offsetMinutes
    && f.hour < 100 && f.offsetHours < 100
    && ValidFields(f.year, f.day, f.hour, f.minute, f.second, f.offsetHours, f.offsetMinutes)
  }

  /** The decimal digit character of d. */
  function DigitChar(d: nat): (c: char)
    requires d < 10
    ensures IsDigit(c) && DigitValue(c) == d
  {
    ('0' as int + d) as char
  }

  /** The two-digit text of n, with a leading zero below 10. */
  function TwoDigits(n: nat): (t: string)
    requires n < 100
    ensures |t| == 2 && IsDigit(t[0]) && IsDigit(t[1]) && DigitValue(t[0]) * 10 + DigitValue(t[1]) == n
  {
    [DigitChar(n / 10), DigitChar(n % 10)]
  }

  /** The text of the fields in the pattern "dd/MMM/yyyy:HH:mm:ss Z". */
  function FormatTimestamp(f: TimestampFields): (s: string)
    requires Writable(f)
    ensures |s| == 26
  {
    var name := MonthNames[f.month - 1];
    var d, c, y := TwoDigits(f.day), TwoDigits(f.year / 100), TwoDigits(f.year % 100);
    var h, mi, se := TwoDigits(f.hour), TwoDigits(f.minute), TwoDigits(f.second);
    var oh, om := TwoDigits(f.offsetHours), TwoDigits(f.offsetMinutes);
    [d[0], d[1], '/', name[0], name[1], name[2], '/', c[0], c[1], y[0], y[1],
     ':', h[0], h[1], ':', mi[0], mi[1], ':', se[0], se[1],
     ' ', if f.negativeOffset then '-' else '+', oh[0], oh[1], om[0], om[1]]
  }

  /** Each month name is found at its own number. */
  lemma MonthNumberOfName(m: int)
    requires 1 <= m <= 12
    ensures MonthNumber(MonthNames[m - 1]) == Some(m)
  {
    var r := MonthNumber(MonthNames[m - 1]);
    assert MonthNames[m - 1] in MonthNames;
    MonthNamesDistinct(r.value - 1, m - 1);
  }

  /** No two months share an abbreviation. */
  lemma MonthNamesDistinct(i: int, j: int)
    requires 0 <= i < 12 && 0 <= j < 12 && MonthNames[i] == MonthNames[j]
    ensures i == j
  {
    MonthNameLength(i + 1);
    assert MonthNames[i][1] == MonthNames[j][1] && MonthNames[i][2] == MonthNames[j][2];
  }

  /** The text of writable fields has the pattern's shape. */
  lemma FormattedShape(f: TimestampFields)
    requires Writable(f)
    ensures HasTimestampShape(FormatTimestamp(f))
  {
  }

  /** The month's name stands in the text of writable fields at positions 3 to 5. */
  lemma FormattedMonth(f: TimestampFields)
    requires Writable(f)
    ensures var s := FormatTimestamp(f); [s[3], s[4], s[5]] == MonthNames[f.month - 1]
  {
    MonthNameLength(f.month);
    var s := FormatTimestamp(f);
    assert [s[3], s[4], s[5]] == MonthNames[f.month - 1];
  }

  /** Every month name has three letters. */
  lemma MonthNameLength(m: int)
    requires 1 <= m <= 12
    ensures |MonthNames[m - 1]| == 3
  {
  }

  /** Each number field of the text reads back from its place. */
  lemma FormattedNumbers(f: TimestampFields)
    requires Writable(f)
    requires HasTimestampShape(FormatTimestamp(f))
    ensures var s := FormatTimestamp(f);
      && TwoDigitsAt(s, 0) == f.day && TwoDigitsAt(s, 7) * 100 + TwoDigitsAt(s, 9) == f.year
      && TwoDigitsAt(s, 12) == f.hour && TwoDigitsAt(s, 15) == f.minute && TwoDigitsAt(s, 18) == f.second
      && TwoDigitsAt(s, 22) == f.offsetHours && TwoDigitsAt(s, 24) == f.offsetMinutes
  {
  }

  /**
   * Parsing the text of writable fields gives back their local date and
   * time, whatever the offset; a day past the end of the month becomes the
   * month's last day.
   */
  lemma ParseFormatted(f: TimestampFields)
    requires Writable(f)
    ensures var day := if f.day <= MonthLength(f.year, f.month) then f.day else MonthLength(f.year, f.month);
      ParseTimestamp(FormatTimestamp(f)) == Some(LocalSecond(f.year, f.month, day, f.hour, f.minute, f.second))
  {
    FormattedShape(f);
    FormattedMonth(f);
    FormattedNumbers(f);
    MonthNumberOfName(f.month);
    var s := FormatTimestamp(f);
    assert MonthNumber([s[3], s[4], s[5]]) == Some(f.month);
  }

  /** 24:00:00 is midnight of the next day within the month. */
  lemma MidnightIsNextDay(y: int, m: int, d: int)
    requires 1 <= m <= 12
    ensures LocalSecond(y, m, d, 24, 0, 0) == LocalSecond(y, m, d + 1, 0, 0, 0)
  {
  }

  /**
   * A text is accepted exactly when it has the pattern's shape, a US month
   * abbreviation and field values the smart resolver accepts.
   */
  lemma AcceptedExactly(s: string)
    ensures ParseTimestamp(s).Some? <==>
      && HasTimestampShape(s) && MonthNumber([s[3], s[4], s[5]]).Some?
      && ValidFields(TwoDigitsAt(s, 7) * 100 + TwoDigitsAt(s, 9), TwoDigitsAt(s, 0), TwoDigitsAt(s, 12),
                     TwoDigitsAt(s, 15), TwoDigitsAt(s, 18), TwoDigitsAt(s, 22), TwoDigitsAt(s, 24))
  {
  }

  /** Every timestamp the parser accepts lies strictly between LocalDateTime.MIN and LocalDateTime.MAX. */
  lemma ParsedTimeInRange(s: string)
    requires ParseTimestamp(s).Some?
    ensures LocalDateTimeMin < ParseTimestamp(s).value < LocalDateTimeMax
  {
  }

  /**
   * The offset is read and then discarded: two timestamps that agree up to
   * the offset and are both accepted denote the same local date and time.
   */
  lemma OffsetIsDiscarded(s: string, t: string)
    requires |s| == |t| == 26 && s[..21] == t[..21]
    requires ParseTimestamp(s).Some? && ParseTimestamp(t).Some?
    ensures ParseTimestamp(s) == ParseTimestamp(t)
  {
    assert forall i :: 0 <= i < 21 ==> s[i] == t[i] by {
      forall i | 0 <= i < 21 ensures s[i] == t[i] {
        assert s[..21][i] == t[..21][i];
      }
    }
  }

  /** The timestamp of a typical log line: the offset -0700 is dropped. */
  lemma ExampleTimestamp()
    ensures ParseTimestamp("10/Oct/2020:13:55:36 -0700") == Some(LocalSecond(2020, 10, 10, 13, 55, 36))
  {
    var f := TimestampFields(2020, 10, 10, 13, 55, 36, true, 7, 0);
    assert MonthLength(2020, 10) == 31;
    assert FormatTimestamp(f) == "10/Oct/2020:13:55:36 -0700";
    ParseFormatted(f);
  }

  /** 24:00:00 is read as midnight of the next day. */
  lemma ExampleMidnight()
    ensures ParseTimestamp("10/Oct/2020:24:00:00 +0000") == Some(LocalSecond(2020, 10, 11, 0, 0, 0))
  {
    var f := TimestampFields(2020, 10, 10, 24, 0, 0, false, 0, 0);
    assert MonthLength(2020, 10) == 31;
    assert FormatTimestamp(f) == "10/Oct/2020:24:00:00 +0000";
    ParseFormatted(f);
    MidnightIsNextDay(2020, 10, 10);
  }

  /** The smart resolver moves April 31st back to April 30th. */
  lemma ExampleDayClamped()
    ensures ParseTimestamp("31/Apr/2021:00:00:00 +0000") == Some(LocalSecond(2021, 4, 30, 0, 0, 0))
  {
    var f := TimestampFields(2021, 4, 31, 0, 0, 0, false, 0, 0);
    assert MonthLength(2021, 4) == 30;
    assert FormatTimestamp(f) == "31/Apr/2021:00:00:00 +0000";
    ParseFormatted(f);
  }

  /** Month abbreviations are matched case-sensitively. */
  lemma ExampleMonthCase()
    ensures ParseTimestamp("10/OCT/2020:13:55:36 -0700") == None
  {
    var s := "10/OCT/2020:13:55:36 -0700";
    assert [s[3], s[4], s[5]] == "OCT";
    assert MonthNumber("OCT") == None;
  }
}
