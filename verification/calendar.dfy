/** The calendar and clock validators `valid_date` and `valid_time`. */
module Calendar {
  import opened Codes

  const MaxYear := 9999

  /** Days of each month of a common year, January first (the library's `days` table). */
  const CommonMonthDays: seq<int> := [31, 28, 31, 30, 31, 30, 31, 31, 30, 31, 30, 31]

  /** The leap-year test in the library's own formulation. `ValidDate` applies it only
      to years in [0, 9999], where C's remainder and Dafny's agree. */
  predicate IsLeapYear(year: int) {
    (year % 4 == 0 && year % 100 != 0) || (year % 100 == 0 && year % 400 == 0)
  }

  /** Largest day `ValidDate` accepts for `month` of `year`: the table entry, with
      February raised by one in a leap year. */
  function MonthLimit(year: int, month: int): int
    requires 1 <= month <= 12
  {
    if month == 2 && IsLeapYear(year) then CommonMonthDays[1] + 1 else CommonMonthDays[month - 1]
  }

  // Reference definitions: the Gregorian calendar and the 24-hour clock.

  /** Gregorian rule: every 400th year, or every 4th year that is not a century. */
  predicate GregorianLeap(year: int) {
    year % 400 == 0 || (year % 4 == 0 && year % 100 != 0)
  }

  /** Number of days in a Gregorian month. */
  function GregorianMonthLength(year: int, month: int): int
    requires 1 <= month <= 12
  {
    if month == 2 then (if GregorianLeap(year) then 29 else 28)
    else if month == 4 || month == 6 || month == 9 || month == 11 then 30
    else 31
  }

  /** A time of day on the 24-hour clock, without leap seconds. */
  predicate IsClockTime(hour: int, minute: int, second: int) {
    0 <= hour < 24 && 0 <= minute < 60 && 0 <= second < 60
  }

  /** `valid_date`: for YYYYMMDD the first failing check, in the order year, month,
      day, decides the code; the day is bounded above only. Every other format is
      refused as a request. */
  function ValidDate(format: Format, year: int, month: int, day: int): (r: Code)
    ensures r in {Validated, InvalidYear, InvalidMonth, InvalidDay, InvalidRequest}
    ensures r == InvalidRequest <==> format != YearMonthDay
    ensures r == InvalidYear <==> format == YearMonthDay && !(0 <= year <= MaxYear)
    ensures r == InvalidMonth <==>
      format == YearMonthDay && 0 <= year <= MaxYear && !(1 <= month <= 12)
    ensures r == InvalidDay <==>
      format == YearMonthDay && 0 <= year <= MaxYear && 1 <= month <= 12
      && day > GregorianMonthLength(year, month)
  {
    match format
    case YearMonthDay =>
      if year < 0 || year > MaxYear then InvalidYear
      else if month < 1 || month > 12 then InvalidMonth
      else if day > MonthLimit(year, month) then InvalidDay
      else Validated
    case _ => InvalidRequest
  }

  /** The hour and minute checks that HHMMSS falls through to after the second. */
  function HourMinuteCheck(hour: int, minute: int): Code
  {
    if minute > 59 || minute < 0 then InvalidMinute
    else if hour > 23 || hour < 0 then InvalidHour
    else Validated
  }

  /** `valid_time`: HHMMSS checks the second, then the minute, then the hour; HHMM
      skips the second. Every other format is refused as a request. */
  function ValidTime(format: Format, hour: int, minute: int, second: int): (r: Code)
    ensures r in {Validated, InvalidHour, InvalidMinute, InvalidSecond, InvalidRequest}
    ensures r == InvalidRequest <==> format != HourMinSec && format != HourMin
    ensures format == HourMinSec ==> (r == Validated <==> IsClockTime(hour, minute, second))
    ensures format == HourMin ==> (r == Validated <==> IsClockTime(hour, minute, 0))
    ensures r == InvalidSecond <==> format == HourMinSec && !(0 <= second < 60)
    ensures r == InvalidMinute ==> !(0 <= minute < 60)
    ensures r == InvalidHour ==> 0 <= minute < 60 && !(0 <= hour < 24)
  {
    match format
    case HourMinSec =>
      if second > 59 || second < 0 then InvalidSecond else HourMinuteCheck(hour, minute)
    case HourMin => HourMinuteCheck(hour, minute)
    case _ => InvalidRequest
  }

  /** The library's leap-year formulation is the Gregorian rule. */
  lemma LeapRuleIsGregorian(year: int)
    ensures IsLeapYear(year) <==> GregorianLeap(year)
  {
    if year % 400 == 0 {
      var k := year / 400;
      assert year == 100 * (4 * k) && year == 4 * (100 * k);
    }
  }

  /** February 29 is accepted exactly in the leap years of the year range. */
  lemma LeapDay(year: int)
    ensures ValidDate(YearMonthDay, year, 2, 29) == Validated <==>
      0 <= year <= MaxYear && GregorianLeap(year)
  {
  }

  /** Only an upper bound is placed on the day: day 0 and negative days pass. */
  lemma NonPositiveDayAccepted(year: int, month: int, day: int)
    requires 0 <= year <= MaxYear && 1 <= month <= 12 && day <= 0
    ensures ValidDate(YearMonthDay, year, month, day) == Validated
  {
  }

  /** With seconds present and valid, HHMMSS answers exactly what HHMM answers; the
      second passed with HHMM is ignored. */
  lemma SecondsFallThrough(hour: int, minute: int, second: int, ignored: int)
    ensures ValidTime(HourMinSec, hour, minute, second) ==
      if 0 <= second <= 59 then ValidTime(HourMin, hour, minute, ignored) else InvalidSecond
  {
  }
}
