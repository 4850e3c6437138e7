/** The timestamp matcher `format_match`. It is written for the profile
    `YYYY-MM-DDThh:mm:ss` followed by `Z` or `+hh:mm`/`-hh:mm`, the date-time
    production of section 5.6 of RFC 3339 without fractional seconds or the leap
    second of section 5.7. What it accepts is not quite that language: it lets day
    00 through, never looks at the character after the offset sign, and ignores
    whatever follows a `Z` at position 19 (see the differences listed in README.md). */
module Matcher {
  import opened Codes
  import opened CText
  import opened Calendar

  const MinStampLen := 20
  const MaxStampLen := 25

  /** The library's digit-position table (`chk8601`). Entries 0..13 are the date and
      time digits; the offset check reads entries 15..17 only, so position 20
      (entry 14) is never checked. */
  const Chk8601: seq<nat> := [0, 1, 2, 3, 5, 6, 8, 9, 11, 12, 14, 15, 17, 18, 20, 21, 23, 24]

  /** A match outcome: the code, and the candidate buffer after the in-place
      truncation that follows a `Z` at position 19. */
  datatype Match = Match(code: Code, buf: seq<char>)

  /** The five fixed separators of the date and time part. */
  predicate SeparatorsOk(s: seq<char>)
    requires |s| >= MinStampLen
  {
    s[4] == '-' && s[7] == '-' && s[10] == 'T' && s[13] == ':' && s[16] == ':'
  }

  /** Every position `Chk8601[i]` with `lo <= i < hi` holds a digit. */
  predicate DigitsAt(s: seq<char>, lo: nat, hi: nat)
    requires lo <= hi <= |Chk8601|
    requires |s| > (if hi <= 14 then 18 else 24)
    decreases hi - lo
  {
    lo == hi || (IsDigit(s[Chk8601[lo]]) && DigitsAt(s, lo + 1, hi))
  }

  /** The checks that follow the timezone-length classification, on the possibly
      truncated buffer: offset layout, digits, date, time, offset value. */
  function CheckFields(t: seq<char>): Code
    requires MinStampLen <= |t| <= MaxStampLen
  {
    if |t| == 25 && (t[22] != ':' || (t[19] != '-' && t[19] != '+')) then InvalidTmz
    else if |t| != 20 && |t| != 25 then InvalidTmz
    else if !DigitsAt(t, 0, 14) then InvalidFormat
    else if |t| == 25 && !DigitsAt(t, 15, 18) then InvalidTmz
    else
      var date := ValidDate(YearMonthDay, Atoi(t[0..4]), Atoi(t[5..7]), Atoi(t[8..10]));
      if date != Validated then date
      else
        var time := ValidTime(HourMinSec, Atoi(t[11..13]), Atoi(t[14..16]), Atoi(t[17..19]));
        if time != Validated then time
        else if |t| == 25 && ValidTime(HourMin, Atoi(t[20..22]), Atoi(t[23..25]), 0) != Validated
        then InvalidTmz
        else Validated
  }

  /** `format_match`. */
  function FormatMatch(s: seq<char>, format: Format): (r: Match)
    // the structural checks come first and leave the buffer alone
    ensures format != Utc8601 || |s| < MinStampLen || |s| > MaxStampLen ==> r == Match(InvalidFormat, s)
    ensures MinStampLen <= |s| <= MaxStampLen && !SeparatorsOk(s) ==> r == Match(InvalidFormat, s)
    // timezone classification
    ensures format == Utc8601 && |s| == MinStampLen && SeparatorsOk(s) && s[19] != 'Z' ==>
      r == Match(InvalidTmz, s)
    ensures format == Utc8601 && MinStampLen <= |s| <= MaxStampLen && SeparatorsOk(s) && s[19] == 'Z' ==>
      r.buf == s[..MinStampLen]
    ensures format == Utc8601 && MinStampLen < |s| < MaxStampLen && SeparatorsOk(s) && s[19] != 'Z' ==>
      r == Match(InvalidTmz, s)
    ensures format == Utc8601 && |s| == MaxStampLen && SeparatorsOk(s) && s[19] != 'Z'
      && (s[22] != ':' || (s[19] != '+' && s[19] != '-'))
      ==> r == Match(InvalidTmz, s)
    // only a `Z` truncation ever changes the buffer
    ensures r.buf == s || (|s| > MinStampLen && r.buf == s[..MinStampLen] && s[19] == 'Z')
    // what an accepted buffer looks like
    ensures r.code == Validated ==>
      && (|r.buf| == MinStampLen || |r.buf| == MaxStampLen)
      && SeparatorsOk(r.buf)
      && AllDigits(r.buf[0..4]) && AllDigits(r.buf[5..7]) && AllDigits(r.buf[8..10])
      && AllDigits(r.buf[11..13]) && AllDigits(r.buf[14..16]) && AllDigits(r.buf[17..19])
      && (|r.buf| == MinStampLen <==> r.buf[19] == 'Z')
      && (|r.buf| == MaxStampLen ==> (r.buf[19] == '+' || r.buf[19] == '-') && r.buf[22] == ':')
  {
    if format != Utc8601 || |s| < MinStampLen || |s| > MaxStampLen || !SeparatorsOk(s) then
      Match(InvalidFormat, s)
    else if |s| == MinStampLen && s[19] != 'Z' then Match(InvalidTmz, s)
    else
      var t := if s[19] == 'Z' then s[..MinStampLen] else s;
      var code := CheckFields(t);
      if code == Validated then
        DigitsAtFields(t);
        Match(code, t)
      else Match(code, t)
  }

  /** `DigitsAt` is the loop of the library over a slice of the table. */
  lemma {:induction false} DigitsAtEach(t: seq<char>, lo: nat, hi: nat)
    requires lo <= hi <= |Chk8601|
    requires |t| > (if hi <= 14 then 18 else 24)
    ensures DigitsAt(t, lo, hi) <==> forall j :: lo <= j < hi ==> IsDigit(t[Chk8601[j]])
    decreases hi - lo
  {
    if lo < hi {
      DigitsAtEach(t, lo + 1, hi);
    }
  }

  /** Digits at a run of positions. */
  lemma AllDigitsSlice(t: seq<char>, a: nat, b: nat)
    requires a <= b <= |t|
    ensures AllDigits(t[a..b]) <==> forall i :: a <= i < b ==> IsDigit(t[i])
  {
    assert forall i :: a <= i < b ==> t[a..b][i - a] == t[i];
  }

  /** The first fourteen table entries are the six numeric fields of the date and time. */
  lemma DigitsAtFields(t: seq<char>)
    requires |t| >= MinStampLen
    ensures DigitsAt(t, 0, 14) <==>
      && AllDigits(t[0..4]) && AllDigits(t[5..7]) && AllDigits(t[8..10])
      && AllDigits(t[11..13]) && AllDigits(t[14..16]) && AllDigits(t[17..19])
  {
    DigitsAtEach(t, 0, 14);
    TablePositions(t);
    SliceDigits(t, 0, 4);
    SliceDigits(t, 5, 7);
    SliceDigits(t, 8, 10);
    SliceDigits(t, 11, 13);
    SliceDigits(t, 14, 16);
    SliceDigits(t, 17, 19);
  }

  /** The positions the first fourteen table entries name. */
  lemma TablePositions(t: seq<char>)
    requires |t| >= MinStampLen
    ensures (forall j :: 0 <= j < 14 ==> IsDigit(t[Chk8601[j]])) <==>
      && IsDigit(t[0]) && IsDigit(t[1]) && IsDigit(t[2]) && IsDigit(t[3])
      && IsDigit(t[5]) && IsDigit(t[6]) && IsDigit(t[8]) && IsDigit(t[9])
      && IsDigit(t[11]) && IsDigit(t[12]) && IsDigit(t[14]) && IsDigit(t[15])
      && IsDigit(t[17]) && IsDigit(t[18])
  {
    assert Chk8601[0] == 0 && Chk8601[1] == 1 && Chk8601[2] == 2 && Chk8601[3] == 3;
    assert Chk8601[4] == 5 && Chk8601[5] == 6 && Chk8601[6] == 8 && Chk8601[7] == 9;
    assert Chk8601[8] == 11 && Chk8601[9] == 12 && Chk8601[10] == 14 && Chk8601[11] == 15;
    assert Chk8601[12] == 17 && Chk8601[13] == 18;
  }

  /** A field of two or four characters is a digit string when each of its
      characters is a digit. */
  lemma SliceDigits(t: seq<char>, a: nat, b: nat)
    requires a + 2 == b <= |t| || a + 4 == b <= |t|
    ensures AllDigits(t[a..b]) <==>
      IsDigit(t[a]) && IsDigit(t[a + 1]) && (b == a + 4 ==> IsDigit(t[a + 2]) && IsDigit(t[a + 3]))
  {
    AllDigitsSlice(t, a, b);
  }

  // Reference grammar: the accepted language described without the check order.

  /** The offset hour as `atoi` reads positions 20 and 21 when only position 21 is
      known to be a digit. */
  function OffsetHour(c0: char, c1: char): int
    requires IsDigit(c1)
  {
    if IsDigit(c0) then 10 * DigitValue(c0) + DigitValue(c1)
    else if IsSpace(c0) || c0 == '+' then DigitValue(c1)
    else if c0 == '-' then -(DigitValue(c1) as int)
    else 0
  }

  /** The six numeric fields of positions 0..18 are digit strings. */
  predicate FieldDigits(t: seq<char>)
    requires |t| >= MinStampLen
  {
    && AllDigits(t[0..4]) && AllDigits(t[5..7]) && AllDigits(t[8..10])
    && AllDigits(t[11..13]) && AllDigits(t[14..16]) && AllDigits(t[17..19])
  }

  /** Positions 0..18: `YYYY-MM-DDThh:mm:ss` naming a Gregorian date in years
      0..9999 (day bounded above only) and a time of day. */
  predicate DateTimePart(t: seq<char>)
    requires |t| >= MinStampLen
  {
    && SeparatorsOk(t)
    && FieldDigits(t)
    && Decimal(t[0..4]) <= MaxYear
    && 1 <= Decimal(t[5..7]) <= 12
    && Decimal(t[8..10]) <= GregorianMonthLength(Decimal(t[0..4]), Decimal(t[5..7]))
    && IsClockTime(Decimal(t[11..13]), Decimal(t[14..16]), Decimal(t[17..19]))
  }

  /** A 20-character timestamp in Zulu time. */
  predicate IsZuluStamp(t: seq<char>) {
    |t| == MinStampLen && DateTimePart(t) && t[19] == 'Z'
  }

  /** A 25-character timestamp with a numeric offset, as the library reads it: the
      offset hour is whatever `atoi` makes of positions 20 and 21. */
  predicate IsOffsetStamp(t: seq<char>) {
    && |t| == MaxStampLen
    && DateTimePart(t)
    && (t[19] == '+' || t[19] == '-')
    && t[22] == ':'
    && IsDigit(t[21]) && AllDigits(t[23..25])
    && IsClockTime(OffsetHour(t[20], t[21]), Decimal(t[23..25]), 0)
  }

  /** The field checks of `CheckFields` accept exactly the reference grammar. */
  lemma CheckFieldsAccepts(t: seq<char>)
    requires MinStampLen <= |t| <= MaxStampLen && SeparatorsOk(t)
    requires t[19] == 'Z' <==> |t| == MinStampLen
    ensures CheckFields(t) == Validated <==> IsZuluStamp(t) || IsOffsetStamp(t)
  {
    if |t| == MinStampLen {
      ZuluFieldsAccepted(t);
    } else if |t| == MaxStampLen {
      OffsetFieldsAccepted(t);
    }
  }

  lemma ZuluFieldsAccepted(t: seq<char>)
    requires |t| == MinStampLen && SeparatorsOk(t) && t[19] == 'Z'
    ensures CheckFields(t) == Validated <==> IsZuluStamp(t)
  {
    CheckFieldsOrder(t);
  }

  lemma OffsetFieldsAccepted(t: seq<char>)
    requires |t| == MaxStampLen && SeparatorsOk(t)
    ensures CheckFields(t) == Validated <==> IsOffsetStamp(t)
  {
    if (t[19] == '+' || t[19] == '-') && t[22] == ':' {
      CheckFieldsOrder(t);
      SliceDigits(t, 23, 25);
    }
  }

  /** `atoi` reads the six digit fields as their decimal values. */
  lemma FieldValues(t: seq<char>)
    requires |t| >= MinStampLen && FieldDigits(t)
    ensures Atoi(t[0..4]) == Decimal(t[0..4]) && Atoi(t[5..7]) == Decimal(t[5..7])
    ensures Atoi(t[8..10]) == Decimal(t[8..10]) && Atoi(t[11..13]) == Decimal(t[11..13])
    ensures Atoi(t[14..16]) == Decimal(t[14..16]) && Atoi(t[17..19]) == Decimal(t[17..19])
  {
    AtoiOfDigits(t[0..4]);
    AtoiOfDigits(t[5..7]);
    AtoiOfDigits(t[8..10]);
    AtoiOfDigits(t[11..13]);
    AtoiOfDigits(t[14..16]);
    AtoiOfDigits(t[17..19]);
  }

  /** `atoi` reads the offset hour as `OffsetHour` and the offset minute as its value. */
  lemma OffsetValues(t: seq<char>)
    requires |t| == MaxStampLen && IsDigit(t[21]) && AllDigits(t[23..25])
    ensures Atoi(t[20..22]) == OffsetHour(t[20], t[21])
    ensures Atoi(t[23..25]) == Decimal(t[23..25])
  {
    assert t[20..22] == [t[20], t[21]];
    AtoiPair(t[20], t[21]);
    AtoiOfDigits(t[23..25]);
  }

  /** The accepted language: a buffer of 20 to 25 characters whose first 20 form a
      Zulu timestamp, or a 25-character offset timestamp. */
  lemma AcceptedLanguage(s: seq<char>)
    ensures FormatMatch(s, Utc8601).code == Validated <==>
      (MinStampLen <= |s| <= MaxStampLen && IsZuluStamp(s[..MinStampLen])) || IsOffsetStamp(s)
  {
    if MinStampLen <= |s| <= MaxStampLen {
      var t := s[..MinStampLen];
      assert SeparatorsOk(s) <==> SeparatorsOk(t);
      if SeparatorsOk(s) {
        if s[19] == 'Z' {
          CheckFieldsAccepts(t);
        } else if |s| == MaxStampLen {
          CheckFieldsAccepts(s);
        }
      }
    }
  }

  /** Up to five characters after a `Z` at position 19 make no difference to the
      verdict, and none to the buffer once the separators are in place. */
  lemma TrailingAfterZuluIgnored(s: seq<char>)
    requires MinStampLen <= |s| <= MaxStampLen && s[19] == 'Z'
    ensures FormatMatch(s, Utc8601).code == FormatMatch(s[..MinStampLen], Utc8601).code
    ensures SeparatorsOk(s) ==> FormatMatch(s, Utc8601) == FormatMatch(s[..MinStampLen], Utc8601)
  {
    var t := s[..MinStampLen];
    assert SeparatorsOk(s) <==> SeparatorsOk(t);
    assert t[..MinStampLen] == t;
  }

  /** A buffer in the grammar is accepted as it stands. */
  lemma GrammarAccepted(t: seq<char>)
    requires IsZuluStamp(t) || IsOffsetStamp(t)
    ensures FormatMatch(t, Utc8601) == Match(Validated, t)
  {
    AcceptedLanguage(t);
    if |t| == MinStampLen {
      assert t[..MinStampLen] == t;
    }
  }

  /** A matched buffer, as stored, is in the grammar and matches again unchanged. */
  lemma MatchIdempotent(s: seq<char>)
    requires FormatMatch(s, Utc8601).code == Validated
    ensures var t := FormatMatch(s, Utc8601).buf; IsZuluStamp(t) || IsOffsetStamp(t)
    ensures var t := FormatMatch(s, Utc8601).buf; FormatMatch(t, Utc8601) == Match(Validated, t)
  {
    var t := FormatMatch(s, Utc8601).buf;
    AcceptedLanguage(s);
    if |t| == MinStampLen {
      assert t[..MinStampLen] == t;
    }
    GrammarAccepted(t);
  }

  /** The timezone designator has the shape the classification admits. */
  predicate ZoneShapeOk(s: seq<char>)
    requires MinStampLen <= |s| <= MaxStampLen
  {
    s[19] == 'Z' || (|s| == MaxStampLen && (s[19] == '+' || s[19] == '-') && s[22] == ':')
  }

  /** The checks after the timezone classification, on the truncated buffer. */
  lemma CheckFieldsOrder(t: seq<char>)
    requires |t| == MinStampLen || (|t| == MaxStampLen && (t[19] == '+' || t[19] == '-') && t[22] == ':')
    ensures !FieldDigits(t) ==> CheckFields(t) == InvalidFormat
    ensures FieldDigits(t) && |t| == MaxStampLen && !(IsDigit(t[21]) && IsDigit(t[23]) && IsDigit(t[24]))
      ==> CheckFields(t) == InvalidTmz
    ensures FieldDigits(t) && (|t| == MaxStampLen ==> IsDigit(t[21]) && IsDigit(t[23]) && IsDigit(t[24]))
      ==> CheckFields(t) == NumericOutcome(t)
  {
    DigitsAtFields(t);
    if FieldDigits(t) {
      if |t| == MaxStampLen {
        DigitsAtEach(t, 15, 18);
      }
      if |t| == MaxStampLen && !(IsDigit(t[21]) && IsDigit(t[23]) && IsDigit(t[24])) {
      } else {
        NumericFields(t);
      }
    }
  }

  /** With all digits in place, `CheckFields` gives the numeric verdict. */
  lemma NumericFields(t: seq<char>)
    requires |t| == MinStampLen || (|t| == MaxStampLen && (t[19] == '+' || t[19] == '-') && t[22] == ':')
    requires FieldDigits(t) && DigitsAt(t, 0, 14)
    requires |t| == MaxStampLen ==> IsDigit(t[21]) && IsDigit(t[23]) && IsDigit(t[24]) && DigitsAt(t, 15, 18)
    ensures CheckFields(t) == NumericOutcome(t)
  {
    FieldValues(t);
    if |t| == MaxStampLen {
      OffsetNumeric(t);
    }
  }

  lemma OffsetNumeric(t: seq<char>)
    requires |t| == MaxStampLen && (t[19] == '+' || t[19] == '-') && t[22] == ':'
    requires FieldDigits(t) && DigitsAt(t, 0, 14) && DigitsAt(t, 15, 18)
    requires IsDigit(t[21]) && IsDigit(t[23]) && IsDigit(t[24])
    ensures CheckFields(t) == NumericOutcome(t)
  {
    FieldValues(t);
    SliceDigits(t, 23, 25);
    OffsetValues(t);
  }

  /** The numeric verdict on a buffer whose digits are in place: a date error as is,
      then a time error as is, then an offset outside [00:00, 23:59] as a timezone
      error. */
  function NumericOutcome(t: seq<char>): Code
    requires |t| >= MinStampLen && FieldDigits(t)
    requires |t| == MaxStampLen ==> IsDigit(t[21])
  {
    var date := ValidDate(YearMonthDay, Decimal(t[0..4]), Decimal(t[5..7]), Decimal(t[8..10]));
    var time := ValidTime(HourMinSec, Decimal(t[11..13]), Decimal(t[14..16]), Decimal(t[17..19]));
    if date != Validated then date
    else if time != Validated then time
    else if |t| == MaxStampLen && !(AllDigits(t[23..25])
      && IsClockTime(OffsetHour(t[20], t[21]), Decimal(t[23..25]), 0))
    then InvalidTmz
    else Validated
  }

  /** After the length, separator and timezone checks: digit failures of the date and
      time are format errors, digit failures of the offset are timezone errors, and
      otherwise the numeric verdict decides. */
  lemma LaterChecksInOrder(s: seq<char>)
    requires MinStampLen <= |s| <= MaxStampLen && SeparatorsOk(s) && ZoneShapeOk(s)
    ensures var r := FormatMatch(s, Utc8601);
      !FieldDigits(r.buf) ==> r.code == InvalidFormat
    ensures var r := FormatMatch(s, Utc8601);
      FieldDigits(r.buf) && |r.buf| == MaxStampLen
      && !(IsDigit(r.buf[21]) && IsDigit(r.buf[23]) && IsDigit(r.buf[24]))
      ==> r.code == InvalidTmz
    ensures var r := FormatMatch(s, Utc8601);
      FieldDigits(r.buf) && (|r.buf| == MaxStampLen ==> IsDigit(r.buf[21]) && IsDigit(r.buf[23]) && IsDigit(r.buf[24]))
      ==> r.code == NumericOutcome(r.buf)
  {
    var t := if s[19] == 'Z' then s[..MinStampLen] else s;
    assert FormatMatch(s, Utc8601) == Match(CheckFields(t), t);
    CheckFieldsOrder(t);
  }

  /** The four-digit year field is always in range: no buffer is rejected with
      INVALID_YEAR. */
  lemma YearNeverRejected(s: seq<char>, format: Format)
    ensures FormatMatch(s, format).code != InvalidYear
  {
    if format == Utc8601 && MinStampLen <= |s| <= MaxStampLen && SeparatorsOk(s)
      && !(|s| == MinStampLen && s[19] != 'Z')
    {
      var t := if s[19] == 'Z' then s[..MinStampLen] else s;
      assert FormatMatch(s, format).code == CheckFields(t);
      YearFieldInRange(t);
    }
  }

  /** Once the date and time fields are digits, `atoi` of the year lies in 0..9999. */
  lemma YearFieldInRange(t: seq<char>)
    requires MinStampLen <= |t| <= MaxStampLen
    ensures CheckFields(t) != InvalidYear
  {
    DigitsAtFields(t);
    if DigitsAt(t, 0, 14) {
      AtoiOfDigits(t[0..4]);
      DecimalBound(t[0..4]);
      assert Pow10(4) == 10000;
    }
  }
}
