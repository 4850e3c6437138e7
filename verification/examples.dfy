/** Concrete cases of the validators, the matcher and the store. */
module Examples {
  import opened Codes
  import opened CText
  import opened Calendar
  import opened Matcher
  import opened Stamps
  import opened Store

  /** February 29: 2000 and 2024 are leap years, 1900 and 2023 are not. */
  lemma LeapYearCases()
    ensures ValidDate(YearMonthDay, 2000, 2, 29) == Validated
    ensures ValidDate(YearMonthDay, 1900, 2, 29) == InvalidDay
    ensures ValidDate(YearMonthDay, 2024, 2, 29) == Validated
    ensures ValidDate(YearMonthDay, 2023, 2, 29) == InvalidDay
  {
  }

  /** The clock's last second is accepted; the hour after it is not. */
  lemma ClockBoundaries()
    ensures ValidTime(HourMinSec, 23, 59, 59) == Validated
    ensures ValidTime(HourMinSec, 24, 0, 0) == InvalidHour
  {
  }

  /** The sample timestamps are renderings of stamps in range. */
  lemma ZuluSampleRendered(t: seq<char>)
    requires t == "2024-01-15T10:30:00Z"
    ensures t == Render(Stamp(2024, 1, 15, 10, 30, 0, Zulu))
  {
  }

  lemma OffsetSampleRendered(t: seq<char>)
    requires t == "2024-01-15T10:30:00+05:30"
    ensures t == Render(Stamp(2024, 1, 15, 10, 30, 0, Offset(true, 5, 30)))
  {
  }

  lemma ZuluSample(t: seq<char>)
    requires t == "2024-01-15T10:30:00Z"
    ensures FormatMatch(t, Utc8601) == Match(Validated, t)
  {
    ZuluSampleRendered(t);
    RenderAccepted(Stamp(2024, 1, 15, 10, 30, 0, Zulu));
  }

  lemma OffsetSample(t: seq<char>)
    requires t == "2024-01-15T10:30:00+05:30"
    ensures FormatMatch(t, Utc8601) == Match(Validated, t)
  {
    OffsetSampleRendered(t);
    RenderAccepted(Stamp(2024, 1, 15, 10, 30, 0, Offset(true, 5, 30)));
  }

  lemma UnknownZoneSample(t: seq<char>)
    requires t == "2024-01-15T10:30:00X"
    ensures FormatMatch(t, Utc8601) == Match(InvalidTmz, t)
  {
    assert |t| == MinStampLen && SeparatorsOk(t) && t[19] != 'Z';
  }

  /** A field written as two digits has their value. */
  lemma TwoDigitField(f: seq<char>, n: int)
    requires 0 <= n < 100 && f == Two(n)
    ensures AllDigits(f) && Decimal(f) == n
  {
    TwoRoundTrip(n, "00");
  }

  lemma FebruaryThirtiethDate(t: seq<char>)
    requires t == "2024-02-30T10:30:00Z"
    ensures AllDigits(t[0..4]) && Decimal(t[0..4]) == 2024
    ensures AllDigits(t[5..7]) && Decimal(t[5..7]) == 2
    ensures AllDigits(t[8..10]) && Decimal(t[8..10]) == 30
  {
    assert t[0..4] == Four(2024);
    FourValue(2024);
    TwoDigitField(t[5..7], 2);
    TwoDigitField(t[8..10], 30);
  }

  lemma FebruaryThirtiethTime(t: seq<char>)
    requires t == "2024-02-30T10:30:00Z"
    ensures AllDigits(t[11..13]) && Decimal(t[11..13]) == 10
    ensures AllDigits(t[14..16]) && Decimal(t[14..16]) == 30
    ensures AllDigits(t[17..19]) && Decimal(t[17..19]) == 0
  {
    TwoDigitField(t[11..13], 10);
    TwoDigitField(t[14..16], 30);
    TwoDigitField(t[17..19], 0);
  }

  /** February never has 30 days; the date check reports it after the digits pass. */
  lemma FebruaryThirtiethSample(t: seq<char>)
    requires t == "2024-02-30T10:30:00Z"
    ensures FormatMatch(t, Utc8601) == Match(InvalidDay, t)
  {
    FebruaryThirtiethDate(t);
    FebruaryThirtiethTime(t);
    assert t[..MinStampLen] == t;
    LaterChecksInOrder(t);
    assert NumericOutcome(t) == InvalidDay;
  }

  /** Counting the same key twice leaves one entry with count 2. */
  lemma SameKeyTwice(k: seq<char>)
    requires |k| <= KeyCapacity
    ensures InsertOrMatch(InsertOrMatch([], k, true).list, k, true) == Outcome(Validated, [Entry(k, 2)])
  {
    InsertIntoEmpty(k);
    assert Slot([Entry(k, 1)], k) == 0;
  }

  /** Keys arriving out of order end up ascending. */
  lemma OutOfOrderInserts(a: seq<char>, b: seq<char>, c: seq<char>)
    requires |a| <= KeyCapacity && |b| <= KeyCapacity && |c| <= KeyCapacity
    requires Compare(b, c) == Less && Compare(c, a) == Less
    ensures var l1 := InsertOrMatch([], a, true).list;
      var l2 := InsertOrMatch(l1, b, true).list;
      InsertOrMatch(l2, c, true).list == [Entry(b, 1), Entry(c, 1), Entry(a, 1)]
  {
    InsertIntoEmpty(a);
    CompareTransitive(b, c, a);
    CompareFlip(b, a);
    CompareFlip(c, a);
    CompareFlip(b, c);
    assert Slot([Entry(a, 1)], b) == 0;
    var l2 := [Entry(b, 1), Entry(a, 1)];
    assert InsertOrMatch([Entry(a, 1)], b, true).list == l2;
    assert Slot(l2[1..], c) == 0;
    assert Slot(l2, c) == 1;
  }

  /** Three timestamps of 2021, 2022 and 2023 compare in the order of their years. */
  lemma YearsCompare(a: seq<char>, b: seq<char>, c: seq<char>)
    requires a == "2023-06-01T00:00:00Z" && b == "2021-06-01T00:00:00Z" && c == "2022-06-01T00:00:00Z"
    ensures Compare(b, c) == Less && Compare(c, a) == Less
  {
    assert b[..3] == c[..3] == a[..3];
    CompareFirstDifference(b, c, 3);
    CompareFirstDifference(c, a, 3);
  }

  /** The same for three timestamps of 2023, 2021 and 2022. */
  lemma YearsOutOfOrder(a: seq<char>, b: seq<char>, c: seq<char>)
    requires a == "2023-06-01T00:00:00Z" && b == "2021-06-01T00:00:00Z" && c == "2022-06-01T00:00:00Z"
    ensures var l1 := InsertOrMatch([], a, true).list;
      var l2 := InsertOrMatch(l1, b, true).list;
      InsertOrMatch(l2, c, true).list == [Entry(b, 1), Entry(c, 1), Entry(a, 1)]
  {
    YearsCompare(a, b, c);
    OutOfOrderInserts(a, b, c);
  }
}
