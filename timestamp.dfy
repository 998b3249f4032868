/**
 * The strict `%Y-%m-%d %H:%M:%S` date-time parser behind
 * `convert_string_to_timestamp` and the epoch arithmetic it ends in.
 * There is no time zone: a timestamp counts the seconds from
 * 1970-01-01 00:00:00 to the date-time read off the string, in the
 * proleptic Gregorian calendar.
 */
module Timestamp {
  import opened Wrappers

  /** The range of Rust's `i64`, the type of the returned timestamp. */
  type I64 = x: int | -0x8000_0000_0000_0000 <= x < 0x8000_0000_0000_0000

  datatype DateTime = DateTime(year: int, month: int, day: int, hour: int, minute: int, second: int)

  predicate IsLeapYear(y: int) {
    y % 4 == 0 && (y % 100 != 0 || y % 400 == 0)
  }

  function DaysInYear(y: int): int {
    if IsLeapYear(y) then 366 else 365
  }

  function DaysInMonth(y: int, m: int): int
    requires 1 <= m <= 12
  {
    if m == 2 then (if IsLeapYear(y) then 29 else 28)
    else if m == 4 || m == 6 || m == 9 || m == 11 then 30
    else 31
  }

  /** Fields the fixed format can spell: four digits of year, two of everything else. */
  predicate Spellable(dt: DateTime) {
    && 0 <= dt.year < 10000
    && 0 <= dt.month < 100 && 0 <= dt.day < 100
    && 0 <= dt.hour < 100 && 0 <= dt.minute < 100 && 0 <= dt.second < 100
  }

  /** A calendar date-time with every field in range. */
  predicate IsValid(dt: DateTime) {
    && 0 <= dt.year < 10000
    && 1 <= dt.month <= 12 && 1 <= dt.day <= DaysInMonth(dt.year, dt.month)
    && 0 <= dt.hour < 24 && 0 <= dt.minute < 60 && 0 <= dt.second < 60
  }

  /** Lexicographic order on (year, month, day, hour, minute, second). */
  predicate Before(a: DateTime, b: DateTime) {
    || a.year < b.year
    || (a.year == b.year && a.month < b.month)
    || (a.year == b.year && a.month == b.month && a.day < b.day)
    || (a.year == b.year && a.month == b.month && a.day == b.day && a.hour < b.hour)
    || (a.year == b.year && a.month == b.month && a.day == b.day && a.hour == b.hour && a.minute < b.minute)
    || (a.year == b.year && a.month == b.month && a.day == b.day && a.hour == b.hour && a.minute == b.minute
        && a.second < b.second)
  }

  // ---------------------------------------------------------------------
  // Epoch arithmetic, in the closed form a date library evaluates
  // ---------------------------------------------------------------------

  /** The number of leap years in [0, y). */
  function LeapYearsBefore(y: int): int
    requires y >= 0
  {
    (y + 3) / 4 - (y + 99) / 100 + (y + 399) / 400
  }

  /** Days from 1970-01-01 to January 1 of year y (negative before 1970). */
  function DaysToYear(y: int): int
    requires y >= 0
  {
    365 * y + LeapYearsBefore(y) - 719528
  }

  /** Days of year y before the first of month m; m == 13 gives the whole year. */
  function DaysToMonth(y: int, m: int): int
    requires 1 <= m <= 13
  {
    var common :=
      if m == 1 then 0 else if m == 2 then 31 else if m == 3 then 59
      else if m == 4 then 90 else if m == 5 then 120 else if m == 6 then 151
      else if m == 7 then 181 else if m == 8 then 212 else if m == 9 then 243
      else if m == 10 then 273 else if m == 11 then 304 else if m == 12 then 334
      else 365;
    if m > 2 && IsLeapYear(y) then common + 1 else common
  }

  /** Seconds from 1970-01-01 00:00:00 to dt, what `NaiveDateTime::timestamp` returns. */
  function EpochSeconds(dt: DateTime): int
    requires IsValid(dt)
  {
    var days := DaysToYear(dt.year) + DaysToMonth(dt.year, dt.month) + (dt.day - 1);
    days * 86400 + dt.hour * 3600 + dt.minute * 60 + dt.second
  }

  // ---------------------------------------------------------------------
  // Reference definitions: the same quantities counted year by year and
  // month by month
  // ---------------------------------------------------------------------

  /** Days from 1970-01-01 to January 1 of year y, adding or removing whole years. */
  function CountDaysToYear(y: int): int
    decreases if y < 1970 then 1970 - y else y - 1970
  {
    if y == 1970 then 0
    else if y > 1970 then CountDaysToYear(y - 1) + DaysInYear(y - 1)
    else CountDaysToYear(y + 1) - DaysInYear(y)
  }

  /** Days of year y before month m, adding the lengths of the months before it. */
  function CountDaysToMonth(y: int, m: int): int
    requires 1 <= m <= 13
  {
    if m == 1 then 0 else CountDaysToMonth(y, m - 1) + DaysInMonth(y, m - 1)
  }

  /** Whole days since the epoch times 86400, plus the seconds of the day. */
  function CountEpochSeconds(dt: DateTime): int
    requires IsValid(dt)
  {
    var days := CountDaysToYear(dt.year) + CountDaysToMonth(dt.year, dt.month) + (dt.day - 1);
    days * 86400 + (dt.hour * 60 + dt.minute) * 60 + dt.second
  }

  lemma LeapYearsStep(y: int)
    requires y >= 0
    ensures LeapYearsBefore(y + 1) == LeapYearsBefore(y) + (if IsLeapYear(y) then 1 else 0)
  {
    CeilingStep4(y);
    CeilingStep100(y);
    CeilingStep400(y);
    DivisibilityChain(y);
    var step := LeapYearsBefore(y + 1) - LeapYearsBefore(y);
    assert step == (if y % 4 == 0 then 1 else 0) - (if y % 100 == 0 then 1 else 0) + (if y % 400 == 0 then 1 else 0);
  }

  lemma DivisibilityChain(y: int)
    ensures y % 400 == 0 ==> y % 100 == 0
    ensures y % 100 == 0 ==> y % 4 == 0
  {
    if y % 400 == 0 {
      MultipleOf100(y, 4 * (y / 400));
    }
    if y % 100 == 0 {
      MultipleOf4(y, 25 * (y / 100));
    }
  }

  lemma MultipleOf100(y: int, k: int)
    requires y == 100 * k
    ensures y % 100 == 0
  {
  }

  lemma MultipleOf4(y: int, k: int)
    requires y == 4 * k
    ensures y % 4 == 0
  {
  }

  lemma CeilingStep4(y: int)
    requires y >= 0
    ensures (y + 4) / 4 == (y + 3) / 4 + (if y % 4 == 0 then 1 else 0)
  {
    var q, r := y / 4, y % 4;
    assert y == 4 * q + r && 0 <= r < 4;
    assert (y + 4) / 4 == q + 1;
    assert (y + 3) / 4 == if r == 0 then q else q + 1;
  }

  lemma CeilingStep100(y: int)
    requires y >= 0
    ensures (y + 100) / 100 == (y + 99) / 100 + (if y % 100 == 0 then 1 else 0)
  {
    var q, r := y / 100, y % 100;
    assert y == 100 * q + r && 0 <= r < 100;
    assert (y + 100) / 100 == q + 1;
    assert (y + 99) / 100 == if r == 0 then q else q + 1;
  }

  lemma CeilingStep400(y: int)
    requires y >= 0
    ensures (y + 400) / 400 == (y + 399) / 400 + (if y % 400 == 0 then 1 else 0)
  {
    var q, r := y / 400, y % 400;
    assert y == 400 * q + r && 0 <= r < 400;
    assert (y + 400) / 400 == q + 1;
    assert (y + 399) / 400 == if r == 0 then q else q + 1;
  }

  lemma DaysToYearStep(y: int)
    requires y >= 0
    ensures DaysToYear(y + 1) == DaysToYear(y) + DaysInYear(y)
  {
    LeapYearsStep(y);
  }

  /** The closed form counts the same days as adding whole years. */
  lemma {:induction false} DaysToYearCounts(y: int)
    requires y >= 0
    ensures DaysToYear(y) == CountDaysToYear(y)
    decreases if y < 1970 then 1970 - y else y - 1970
  {
    if y > 1970 {
      DaysToYearCounts(y - 1);
      DaysToYearStep(y - 1);
    } else if y < 1970 {
      DaysToYearCounts(y + 1);
      DaysToYearStep(y);
    }
  }

  /** The month table counts the same days as adding month lengths. */
  lemma {:induction false} DaysToMonthCounts(y: int, m: int)
    requires 1 <= m <= 13
    ensures DaysToMonth(y, m) == CountDaysToMonth(y, m)
  {
    if m > 1 {
      DaysToMonthCounts(y, m - 1);
    }
  }

  /** The evaluated timestamp is the one counted day by day. */
  lemma EpochSecondsCounts(dt: DateTime)
    requires IsValid(dt)
    ensures EpochSeconds(dt) == CountEpochSeconds(dt)
  {
    DaysToYearCounts(dt.year);
    DaysToMonthCounts(dt.year, dt.month);
  }

  lemma {:induction false} DaysToYearGrows(y1: int, y2: int)
    requires 0 <= y1 < y2
    ensures DaysToYear(y1) + DaysInYear(y1) <= DaysToYear(y2)
    decreases y2 - y1
  {
    DaysToYearStep(y1);
    if y1 + 1 < y2 {
      DaysToYearGrows(y1 + 1, y2);
    }
  }

  lemma DaysToMonthGrows(y: int, m1: int, m2: int)
    requires 1 <= m1 < m2 <= 13
    ensures DaysToMonth(y, m1) + DaysInMonth(y, m1) <= DaysToMonth(y, m2)
  {
  }

  /** A later date-time has a strictly larger timestamp. */
  lemma EpochSecondsOrdered(a: DateTime, b: DateTime)
    requires IsValid(a) && IsValid(b) && Before(a, b)
    ensures EpochSeconds(a) < EpochSeconds(b)
  {
    var da := DaysToYear(a.year) + DaysToMonth(a.year, a.month) + (a.day - 1);
    var db := DaysToYear(b.year) + DaysToMonth(b.year, b.month) + (b.day - 1);
    DaysToMonthGrows(a.year, a.month, 13);
    if a.year < b.year {
      DaysToYearGrows(a.year, b.year);
      assert da < db;
    } else if a.month < b.month {
      DaysToMonthGrows(a.year, a.month, b.month);
      assert da < db;
    } else if a.day < b.day {
      assert da < db;
    } else {
      assert da == db;
    }
  }

  /** Distinct valid date-times have distinct timestamps. */
  lemma EpochSecondsInjective(a: DateTime, b: DateTime)
    requires IsValid(a) && IsValid(b) && EpochSeconds(a) == EpochSeconds(b)
    ensures a == b
  {
    if Before(a, b) {
      EpochSecondsOrdered(a, b);
    } else if Before(b, a) {
      EpochSecondsOrdered(b, a);
    }
  }

  /** Every timestamp lies between those of 0000-01-01 00:00:00 and 9999-12-31 23:59:59. */
  lemma EpochSecondsBounds(dt: DateTime)
    requires IsValid(dt)
    ensures -62167219200 <= EpochSeconds(dt) <= 253402300799
  {
    var first := DateTime(0, 1, 1, 0, 0, 0);
    var last := DateTime(9999, 12, 31, 23, 59, 59);
    assert EpochSeconds(first) == -62167219200;
    assert EpochSeconds(last) == 253402300799;
    if Before(first, dt) {
      EpochSecondsOrdered(first, dt);
    }
    if Before(dt, last) {
      EpochSecondsOrdered(dt, last);
    }
  }

  // ---------------------------------------------------------------------
  // The fixed format
  // ---------------------------------------------------------------------

  predicate IsDigit(c: char) {
    '0' <= c <= '9'
  }

  function DigitValue(c: char): int
    requires IsDigit(c)
  {
    c as int - '0' as int
  }

  function DigitChar(n: int): char
    requires 0 <= n < 10
  {
    (n + '0' as int) as char
  }

  /** n as exactly two decimal digits. */
  function Digits2(n: int): string
    requires 0 <= n < 100
  {
    [DigitChar(n / 10), DigitChar(n % 10)]
  }

  /** n as exactly four decimal digits. */
  function Digits4(n: int): string
    requires 0 <= n < 10000
  {
    Digits2(n / 100) + Digits2(n % 100)
  }

  /** dt written as `%Y-%m-%d %H:%M:%S`. */
  function Format(dt: DateTime): string
    requires Spellable(dt)
  {
    Digits4(dt.year) + "-" + Digits2(dt.month) + "-" + Digits2(dt.day) + " "
      + Digits2(dt.hour) + ":" + Digits2(dt.minute) + ":" + Digits2(dt.second)
  }

  predicate IsSeparatorPosition(i: int) {
    i == 4 || i == 7 || i == 10 || i == 13 || i == 16
  }

  function SeparatorAt(i: int): char
    requires IsSeparatorPosition(i)
  {
    if i == 4 || i == 7 then '-' else if i == 10 then ' ' else ':'
  }

  /** s has the shape `DDDD-DD-DD DD:DD:DD`, D a decimal digit. */
  predicate HasLayout(s: string) {
    |s| == 19 && forall i | 0 <= i < 19 :: if IsSeparatorPosition(i) then s[i] == SeparatorAt(i) else IsDigit(s[i])
  }

  /** The decimal value of the digits s[lo..hi]. */
  function DecimalValue(s: string, lo: int, hi: int): int
    requires 0 <= lo <= hi <= |s|
    requires forall i | lo <= i < hi :: IsDigit(s[i])
    decreases hi - lo
  {
    if lo == hi then 0 else DecimalValue(s, lo, hi - 1) * 10 + DigitValue(s[hi - 1])
  }

  /** The six numbers a string of the right shape spells, unchecked. */
  function Fields(s: string): DateTime
    requires HasLayout(s)
  {
    DateTime(DecimalValue(s, 0, 4), DecimalValue(s, 5, 7), DecimalValue(s, 8, 10),
             DecimalValue(s, 11, 13), DecimalValue(s, 14, 16), DecimalValue(s, 17, 19))
  }

  lemma DecimalValue2(s: string, lo: int)
    requires 0 <= lo && lo + 2 <= |s| && IsDigit(s[lo]) && IsDigit(s[lo + 1])
    ensures DecimalValue(s, lo, lo + 2) == 10 * DigitValue(s[lo]) + DigitValue(s[lo + 1])
  {
    assert DecimalValue(s, lo, lo + 1) == DigitValue(s[lo]);
  }

  lemma DecimalValue4(s: string, lo: int)
    requires 0 <= lo && lo + 4 <= |s|
    requires IsDigit(s[lo]) && IsDigit(s[lo + 1]) && IsDigit(s[lo + 2]) && IsDigit(s[lo + 3])
    ensures DecimalValue(s, lo, lo + 4)
         == 1000 * DigitValue(s[lo]) + 100 * DigitValue(s[lo + 1]) + 10 * DigitValue(s[lo + 2]) + DigitValue(s[lo + 3])
  {
    DecimalValue2(s, lo);
    assert DecimalValue(s, lo, lo + 3) == DecimalValue(s, lo, lo + 2) * 10 + DigitValue(s[lo + 2]);
  }

  lemma Digits2Value(n: int)
    requires 0 <= n < 100
    ensures IsDigit(Digits2(n)[0]) && IsDigit(Digits2(n)[1])
    ensures 10 * DigitValue(Digits2(n)[0]) + DigitValue(Digits2(n)[1]) == n
  {
  }

  lemma Digits4Value(n: int)
    requires 0 <= n < 10000
    ensures forall k | 0 <= k < 4 :: IsDigit(Digits4(n)[k])
    ensures 1000 * DigitValue(Digits4(n)[0]) + 100 * DigitValue(Digits4(n)[1])
          + 10 * DigitValue(Digits4(n)[2]) + DigitValue(Digits4(n)[3]) == n
  {
    Digits2Value(n / 100);
    Digits2Value(n % 100);
  }

  /** Two digits of s, read and spelled again, are the same two characters. */
  lemma Digits2OfDigits(s: string, lo: int)
    requires 0 <= lo && lo + 2 <= |s| && IsDigit(s[lo]) && IsDigit(s[lo + 1])
    ensures 0 <= DecimalValue(s, lo, lo + 2) < 100
    ensures Digits2(DecimalValue(s, lo, lo + 2)) == s[lo..lo + 2]
  {
    DecimalValue2(s, lo);
  }

  /** Four digits of s, read and spelled again, are the same four characters. */
  lemma Digits4OfDigits(s: string, lo: int)
    requires 0 <= lo && lo + 4 <= |s|
    requires IsDigit(s[lo]) && IsDigit(s[lo + 1]) && IsDigit(s[lo + 2]) && IsDigit(s[lo + 3])
    ensures 0 <= DecimalValue(s, lo, lo + 4) < 10000
    ensures Digits4(DecimalValue(s, lo, lo + 4)) == s[lo..lo + 4]
  {
    DecimalValue4(s, lo);
    DecimalValue2(s, lo);
    DecimalValue2(s, lo + 2);
    var n := DecimalValue(s, lo, lo + 4);
    assert n / 100 == DecimalValue(s, lo, lo + 2);
    assert n % 100 == DecimalValue(s, lo + 2, lo + 4);
    Digits2OfDigits(s, lo);
    Digits2OfDigits(s, lo + 2);
    assert s[lo..lo + 4] == s[lo..lo + 2] + s[lo + 2..lo + 4];
  }

  /** A string of length 19 cut at the separator positions. */
  lemma Split19(s: string)
    requires |s| == 19
    ensures s == s[0..4] + [s[4]] + s[5..7] + [s[7]] + s[8..10] + [s[10]]
               + s[11..13] + [s[13]] + s[14..16] + [s[16]] + s[17..19]
  {
  }

  /** Formatting spells every field back in place: the string has the shape and its fields are dt's. */
  lemma FieldsOfFormat(dt: DateTime)
    requires Spellable(dt)
    ensures HasLayout(Format(dt)) && Fields(Format(dt)) == dt
  {
    var s := Format(dt);
    Digits4Value(dt.year);
    Digits2Value(dt.month);
    Digits2Value(dt.day);
    Digits2Value(dt.hour);
    Digits2Value(dt.minute);
    Digits2Value(dt.second);
    var y := Digits4(dt.year);
    assert s[0] == y[0] && s[1] == y[1] && s[2] == y[2] && s[3] == y[3];
    assert s[5] == Digits2(dt.month)[0] && s[6] == Digits2(dt.month)[1];
    assert s[8] == Digits2(dt.day)[0] && s[9] == Digits2(dt.day)[1];
    assert s[11] == Digits2(dt.hour)[0] && s[12] == Digits2(dt.hour)[1];
    assert s[14] == Digits2(dt.minute)[0] && s[15] == Digits2(dt.minute)[1];
    assert s[17] == Digits2(dt.second)[0] && s[18] == Digits2(dt.second)[1];
    assert HasLayout(s);
    DecimalValue4(s, 0);
    DecimalValue2(s, 5);
    DecimalValue2(s, 8);
    DecimalValue2(s, 11);
    DecimalValue2(s, 14);
    DecimalValue2(s, 17);
  }

  /** A string of the right shape is the formatting of the fields it spells. */
  lemma FormatOfFields(s: string)
    requires HasLayout(s)
    ensures Spellable(Fields(s)) && Format(Fields(s)) == s
  {
    assert s[4] == '-' && s[7] == '-' && s[10] == ' ' && s[13] == ':' && s[16] == ':' by {
      assert IsSeparatorPosition(4) && IsSeparatorPosition(7) && IsSeparatorPosition(10);
      assert IsSeparatorPosition(13) && IsSeparatorPosition(16);
    }
    Digits4OfDigits(s, 0);
    Digits2OfDigits(s, 5);
    Digits2OfDigits(s, 8);
    Digits2OfDigits(s, 11);
    Digits2OfDigits(s, 14);
    Digits2OfDigits(s, 17);
    Split19(s);
  }

  /** `NaiveDateTime::parse_from_str(s, "%Y-%m-%d %H:%M:%S")`, on the canonical shape. */
  function ParseDateTime(s: string): (r: Option<DateTime>)
    ensures r.Some? ==> IsValid(r.value) && Format(r.value) == s
  {
    if HasLayout(s) && IsValid(Fields(s)) then
      FormatOfFields(s);
      Some(Fields(s))
    else
      None
  }

  /** Parsing what was formatted gives the date-time back. */
  lemma ParseFormatted(dt: DateTime)
    requires IsValid(dt)
    ensures ParseDateTime(Format(dt)) == Some(dt)
  {
    FieldsOfFormat(dt);
  }

  /** `convert_string_to_timestamp`: `None` stands for the returned error. */
  function ConvertStringToTimestamp(s: string): (r: Option<I64>)
    ensures r.Some? ==> exists dt :: IsValid(dt) && Format(dt) == s && r.value == EpochSeconds(dt)
  {
    match ParseDateTime(s)
    case None => None
    case Some(dt) =>
      EpochSecondsBounds(dt);
      Some(EpochSeconds(dt))
  }

  /** s is the spelling of a valid date-time. */
  ghost predicate SpellsDateTime(s: string) {
    exists dt :: IsValid(dt) && Format(dt) == s
  }

  /** The conversion succeeds exactly on spellings of valid date-times. */
  lemma ConvertDefinedIff(s: string)
    ensures ConvertStringToTimestamp(s).Some? <==> SpellsDateTime(s)
  {
    if SpellsDateTime(s) {
      var dt :| IsValid(dt) && Format(dt) == s;
      ConvertFormatted(dt);
    }
  }

  /** Round trip: format a valid date-time, convert it, and obtain its epoch seconds. */
  lemma ConvertFormatted(dt: DateTime)
    requires IsValid(dt)
    ensures ConvertStringToTimestamp(Format(dt)) == Some(EpochSeconds(dt))
  {
    ParseFormatted(dt);
  }

  /** Strictness: fields the format can spell but the calendar or clock does not have are an error. */
  lemma ConvertRejectsOutOfRange(dt: DateTime)
    requires Spellable(dt) && !IsValid(dt)
    ensures ConvertStringToTimestamp(Format(dt)) == None
  {
    FieldsOfFormat(dt);
  }

  /** What a successful conversion returns: the epoch seconds of the parsed date-time. */
  lemma ConvertParsed(s: string)
    requires ConvertStringToTimestamp(s).Some?
    ensures ParseDateTime(s).Some?
    ensures ConvertStringToTimestamp(s).value == EpochSeconds(ParseDateTime(s).value)
  {
  }

  /** Two strings converting to the same timestamp are the same string. */
  lemma ConvertInjective(s1: string, s2: string)
    requires ConvertStringToTimestamp(s1).Some?
    requires ConvertStringToTimestamp(s1) == ConvertStringToTimestamp(s2)
    ensures s1 == s2
  {
    ConvertParsed(s1);
    ConvertParsed(s2);
    EpochSecondsInjective(ParseDateTime(s1).value, ParseDateTime(s2).value);
  }

  /** Converting the spelling of a later date-time gives a strictly larger timestamp. */
  lemma ConvertOrdered(a: DateTime, b: DateTime)
    requires IsValid(a) && IsValid(b) && Before(a, b)
    ensures ConvertStringToTimestamp(Format(a)).Some? && ConvertStringToTimestamp(Format(b)).Some?
    ensures ConvertStringToTimestamp(Format(a)).value < ConvertStringToTimestamp(Format(b)).value
  {
    ConvertFormatted(a);
    ConvertFormatted(b);
    EpochSecondsOrdered(a, b);
  }

  /** The string the source's own test feeds in, with hour 24, is an error. */
  lemma ConvertRejectsHour24()
    ensures ConvertStringToTimestamp("2021-08-23 24:58:40") == None
  {
    var dt := DateTime(2021, 8, 23, 24, 58, 40);
    assert Format(dt) == "2021-08-23 24:58:40";
    ConvertRejectsOutOfRange(dt);
  }

  /** February 29 exists only in leap years: 2021 has none. */
  lemma ConvertRejectsLeapDay2021()
    ensures ConvertStringToTimestamp("2021-02-29 00:00:00") == None
  {
    var dt := DateTime(2021, 2, 29, 0, 0, 0);
    assert Format(dt) == "2021-02-29 00:00:00";
    ConvertRejectsOutOfRange(dt);
  }

  /** February 29 of the leap year 2020. */
  lemma ConvertLeapDay2020()
    ensures ConvertStringToTimestamp("2020-02-29 00:00:00") == Some(1582934400)
  {
    var dt := DateTime(2020, 2, 29, 0, 0, 0);
    assert Format(dt) == "2020-02-29 00:00:00";
    assert EpochSeconds(dt) == 1582934400;
    ConvertFormatted(dt);
  }

  /** The epoch itself converts to zero. */
  lemma ConvertEpoch()
    ensures ConvertStringToTimestamp("1970-01-01 00:00:00") == Some(0)
  {
    var dt := DateTime(1970, 1, 1, 0, 0, 0);
    assert Digits4(1970) == "1970" && Digits2(1) == "01" && Digits2(0) == "00";
    assert Format(dt) == "1970-01-01 00:00:00";
    assert EpochSeconds(dt) == 0;
    ConvertFormatted(dt);
  }

  /** A date of the source's call-log sample. */
  lemma ConvertSampleDate()
    ensures ConvertStringToTimestamp("2021-07-24 19:49:25") == Some(1627156165)
  {
    var dt := DateTime(2021, 7, 24, 19, 49, 25);
    assert Format(dt) == "2021-07-24 19:49:25";
    assert EpochSeconds(dt) == 1627156165;
    ConvertFormatted(dt);
  }
}
