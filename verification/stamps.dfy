/** Timestamps as values, and their rendering in the matcher's profile: the encoder
    against which `format_match` is checked. */
module Stamps {
  import opened Codes
  import opened CText
  import opened Calendar
  import opened Matcher

  /** `Z`, or a numeric offset `+hh:mm` (ahead) or `-hh:mm`. */
  datatype Zone = Zulu | Offset(ahead: bool, hours: int, minutes: int)

  datatype Stamp = Stamp(year: int, month: int, day: int, hour: int, minute: int, second: int, zone: Zone)

  /** The fields of every timestamp the matcher accepts: a year of four digits, a
      month, a day no later than the month's last (day 0 included, as the matcher
      has it), a time of day, and an offset within [00:00, 23:59]. */
  predicate InAcceptedRange(st: Stamp) {
    && 0 <= st.year <= MaxYear
    && 1 <= st.month <= 12
    && 0 <= st.day <= GregorianMonthLength(st.year, st.month)
    && IsClockTime(st.hour, st.minute, st.second)
    && (st.zone.Offset? ==> IsClockTime(st.zone.hours, st.zone.minutes, 0))
  }

  function DigitChar(d: int): char
    requires 0 <= d <= 9
  {
    ('0' as int + d) as char
  }

  lemma DigitCharRoundTrip(d: int, c: char)
    requires 0 <= d <= 9 && IsDigit(c)
    ensures IsDigit(DigitChar(d)) && DigitValue(DigitChar(d)) == d
    ensures DigitChar(DigitValue(c)) == c
  {
  }

  /** A value below 100 as two digits. */
  function Two(n: int): (s: seq<char>)
    requires 0 <= n < 100
    ensures |s| == 2
  {
    [DigitChar(n / 10), DigitChar(n % 10)]
  }

  /** A value below 10000 as four digits. */
  function Four(n: int): (s: seq<char>)
    requires 0 <= n < 10000
    ensures |s| == 4
  {
    Two(n / 100) + Two(n % 100)
  }

  /** Reading two written digits gives the value back, and writing two read digits
      gives the characters back. */
  lemma TwoRoundTrip(n: int, s: seq<char>)
    requires 0 <= n < 100
    requires |s| == 2 && AllDigits(s)
    ensures AllDigits(Two(n)) && Decimal(Two(n)) == n
    ensures Decimal(s) < 100 && Two(Decimal(s)) == s
  {
    var w := Two(n);
    DigitCharRoundTrip(n / 10, s[0]);
    DigitCharRoundTrip(n % 10, s[1]);
    DecimalOfTwo(w);
    DecimalOfTwo(s);
  }

  /** Reading four written digits gives the value back. */
  lemma FourValue(n: int)
    requires 0 <= n < 10000
    ensures AllDigits(Four(n)) && Decimal(Four(n)) == n
  {
    var w := Four(n);
    assert w[..2] == Two(n / 100) && w[2..] == Two(n % 100);
    TwoRoundTrip(n / 100, w[..2]);
    TwoRoundTrip(n % 100, w[2..]);
    DecimalOfFour(w);
  }

  /** Writing four read digits gives the characters back. */
  lemma FourOfDecimal(s: seq<char>)
    requires |s| == 4 && AllDigits(s)
    ensures Decimal(s) < 10000 && Four(Decimal(s)) == s
  {
    DecimalOfFour(s);
    var hi, lo := s[..2], s[2..];
    TwoRoundTrip(0, hi);
    TwoRoundTrip(0, lo);
    var v := Decimal(s);
    assert v / 100 == Decimal(hi) && v % 100 == Decimal(lo);
    assert s == hi + lo;
  }

  /** The value of one digit. */
  lemma DecimalOfOne(s: seq<char>)
    requires |s| == 1 && AllDigits(s)
    ensures Decimal(s) == DigitValue(s[0])
  {
    assert s[..0] == [];
  }

  /** The value of two digits. */
  lemma DecimalOfTwo(s: seq<char>)
    requires |s| == 2 && AllDigits(s)
    ensures Decimal(s) == 10 * DigitValue(s[0]) + DigitValue(s[1])
  {
    var p := s[..1];
    assert AllDigits(p) && p[0] == s[0];
    DecimalOfOne(p);
  }

  /** The value of four digits, as two pairs. */
  lemma DecimalOfFour(s: seq<char>)
    requires |s| == 4 && AllDigits(s)
    ensures AllDigits(s[..2]) && AllDigits(s[2..])
    ensures Decimal(s) == 100 * Decimal(s[..2]) + Decimal(s[2..])
  {
    var p, q := s[..3], s[..2];
    assert p[..2] == q && AllDigits(p) && AllDigits(q);
    DecimalOfTwo(s[2..]);
    assert Decimal(p) == 10 * Decimal(q) + DigitValue(s[2]);
  }

  /** The zone designator: `Z`, or a sign, two hour digits, ':' and two minute digits. */
  function ZoneText(z: Zone): (t: seq<char>)
    requires z.Offset? ==> IsClockTime(z.hours, z.minutes, 0)
  {
    match z
    case Zulu => ['Z']
    case Offset(ahead, hh, mm) =>
      var h, m := Two(hh), Two(mm);
      [if ahead then '+' else '-', h[0], h[1], ':', m[0], m[1]]
  }

  /** The timestamp in the profile `YYYY-MM-DDThh:mm:ss` followed by its zone. */
  function Render(st: Stamp): (t: seq<char>)
    requires InAcceptedRange(st)
    ensures |t| == (if st.zone.Zulu? then MinStampLen else MaxStampLen)
  {
    var y, mo, d := Four(st.year), Two(st.month), Two(st.day);
    var h, mi, se := Two(st.hour), Two(st.minute), Two(st.second);
    [y[0], y[1], y[2], y[3], '-', mo[0], mo[1], '-', d[0], d[1], 'T',
     h[0], h[1], ':', mi[0], mi[1], ':', se[0], se[1]] + ZoneText(st.zone)
  }

  /** A slice equals a two-character sequence whose characters it holds. */
  lemma SliceIs2(t: seq<char>, at: nat, f: seq<char>)
    requires |f| == 2 && at + 2 <= |t| && t[at] == f[0] && t[at + 1] == f[1]
    ensures t[at..at + 2] == f
  {
  }

  /** Where each field of a rendered timestamp sits. */
  lemma RenderLayout(st: Stamp)
    requires InAcceptedRange(st)
    ensures var t := Render(st);
      && t[0..4] == Four(st.year) && t[5..7] == Two(st.month)
      && t[8..10] == Two(st.day) && t[11..13] == Two(st.hour)
      && t[14..16] == Two(st.minute) && t[17..19] == Two(st.second)
      && SeparatorsOk(t)
      && (st.zone.Zulu? ==> t[19] == 'Z')
      && (st.zone.Offset? ==>
        && t[19] == (if st.zone.ahead then '+' else '-') && t[22] == ':'
        && t[20..22] == Two(st.zone.hours) && t[23..25] == Two(st.zone.minutes))
  {
    DateLayout(st);
    TimeLayout(st);
    ZoneLayout(st);
  }

  lemma DateLayout(st: Stamp)
    requires InAcceptedRange(st)
    ensures var t := Render(st);
      t[0..4] == Four(st.year) && t[5..7] == Two(st.month) && t[8..10] == Two(st.day)
  {
    var t := Render(st);
    var y := Four(st.year);
    assert t[0..4] == y by {
      assert y == [y[0], y[1], y[2], y[3]];
    }
    SliceIs2(t, 5, Two(st.month));
    SliceIs2(t, 8, Two(st.day));
  }

  lemma TimeLayout(st: Stamp)
    requires InAcceptedRange(st)
    ensures var t := Render(st);
      && t[11..13] == Two(st.hour) && t[14..16] == Two(st.minute) && t[17..19] == Two(st.second)
      && SeparatorsOk(t)
  {
    var t := Render(st);
    SliceIs2(t, 11, Two(st.hour));
    SliceIs2(t, 14, Two(st.minute));
    SliceIs2(t, 17, Two(st.second));
  }

  lemma ZoneLayout(st: Stamp)
    requires InAcceptedRange(st)
    ensures var t := Render(st);
      && (st.zone.Zulu? ==> t[19] == 'Z')
      && (st.zone.Offset? ==>
        && t[19] == (if st.zone.ahead then '+' else '-') && t[22] == ':'
        && t[20..22] == Two(st.zone.hours) && t[23..25] == Two(st.zone.minutes))
  {
    var t := Render(st);
    if st.zone.Offset? {
      SliceIs2(t, 20, Two(st.zone.hours));
      SliceIs2(t, 23, Two(st.zone.minutes));
    }
  }

  /** A buffer from which `Parse` can read every field. */
  predicate Readable(t: seq<char>) {
    && |t| >= MinStampLen
    && FieldDigits(t)
    && (t[19] != 'Z' ==> |t| == MaxStampLen && IsDigit(t[21]) && AllDigits(t[23..25]))
  }

  /** The fields a matched buffer carries, read back as a value; the offset hour is
      read the way `atoi` reads positions 20 and 21. */
  function Parse(t: seq<char>): Stamp
    requires Readable(t)
  {
    var zone :=
      if t[19] == 'Z' then Zulu
      else Offset(t[19] == '+', OffsetHour(t[20], t[21]), Decimal(t[23..25]));
    Stamp(Decimal(t[0..4]), Decimal(t[5..7]), Decimal(t[8..10]),
          Decimal(t[11..13]), Decimal(t[14..16]), Decimal(t[17..19]), zone)
  }

  /** Two digits read as an offset hour have their decimal value. */
  lemma OffsetHourOfDigits(t: seq<char>)
    requires |t| >= 22 && IsDigit(t[20]) && IsDigit(t[21])
    ensures AllDigits(t[20..22]) && OffsetHour(t[20], t[21]) == Decimal(t[20..22])
  {
    var f := t[20..22];
    assert f[0] == t[20] && f[1] == t[21];
    DecimalOfTwo(f);
  }

  /** The rendering of an in-range timestamp, field by field, is in the reference grammar. */
  lemma RenderInGrammar(st: Stamp)
    requires InAcceptedRange(st)
    ensures var t := Render(st);
      && Readable(t)
      && (if st.zone.Zulu? then IsZuluStamp(t) else IsOffsetStamp(t))
      && Parse(t) == st
  {
    var t := Render(st);
    RenderLayout(st);
    FourValue(st.year);
    TwoRoundTrip(st.month, "00");
    TwoRoundTrip(st.day, "00");
    TwoRoundTrip(st.hour, "00");
    TwoRoundTrip(st.minute, "00");
    TwoRoundTrip(st.second, "00");
    if st.zone.Offset? {
      TwoRoundTrip(st.zone.hours, "00");
      TwoRoundTrip(st.zone.minutes, "00");
      OffsetHourOfDigits(t);
    }
  }

  /** Every timestamp in range renders to a buffer the matcher accepts unchanged. */
  lemma RenderAccepted(st: Stamp)
    requires InAcceptedRange(st)
    ensures FormatMatch(Render(st), Utc8601) == Match(Validated, Render(st))
  {
    var t := Render(st);
    RenderInGrammar(st);
    assert st.zone.Zulu? ==> t[..MinStampLen] == t;
    AcceptedLanguage(t);
    MatchIdempotent(t);
  }

  /** Rendering, then reading the fields back, gives the same timestamp. */
  lemma ParseRender(st: Stamp)
    requires InAcceptedRange(st)
    ensures Readable(Render(st)) && Parse(Render(st)) == st
  {
    RenderInGrammar(st);
  }

  /** Reading an accepted buffer gives an in-range timestamp. */
  lemma ParseInRange(t: seq<char>)
    requires IsZuluStamp(t) || IsOffsetStamp(t)
    ensures Readable(t) && InAcceptedRange(Parse(t))
  {
  }

  /** An accepted buffer is the rendering of its fields exactly when its offset hour
      is written as two digits: a blank, a sign or another character at position 20
      is accepted but not reproduced. */
  lemma RenderParse(t: seq<char>)
    requires IsZuluStamp(t) || IsOffsetStamp(t)
    ensures Readable(t) && InAcceptedRange(Parse(t))
    ensures Render(Parse(t)) == t <==> t[19] == 'Z' || IsDigit(t[20])
  {
    ParseInRange(t);
    var st := Parse(t);
    var r := Render(st);
    RenderLayout(st);
    if t[19] == 'Z' || IsDigit(t[20]) {
      FourOfDecimal(t[0..4]);
      TwoRoundTrip(0, t[5..7]);
      TwoRoundTrip(0, t[8..10]);
      TwoRoundTrip(0, t[11..13]);
      TwoRoundTrip(0, t[14..16]);
      TwoRoundTrip(0, t[17..19]);
      if t[19] != 'Z' {
        OffsetHourOfDigits(t);
        TwoRoundTrip(0, t[20..22]);
        TwoRoundTrip(0, t[23..25]);
      }
      EqualByFields(r, t);
    } else {
      assert r[20] == r[20..22][0];
    }
  }

  /** Two timestamp buffers with equal fields, separators and zone are equal. */
  lemma EqualByFields(r: seq<char>, t: seq<char>)
    requires |r| == |t| && (|t| == MinStampLen || |t| == MaxStampLen)
    requires SeparatorsOk(r) && SeparatorsOk(t) && r[19] == t[19]
    requires r[0..4] == t[0..4] && r[5..7] == t[5..7] && r[8..10] == t[8..10]
    requires r[11..13] == t[11..13] && r[14..16] == t[14..16] && r[17..19] == t[17..19]
    requires |t| == MaxStampLen ==> r[20..22] == t[20..22] && r[22] == t[22] && r[23..25] == t[23..25]
    ensures r == t
  {
    forall i | 0 <= i < |t|
      ensures r[i] == t[i]
    {
      if i < 4 { assert r[i] == r[0..4][i] && t[i] == t[0..4][i]; }
      else if 5 <= i < 7 { assert r[i] == r[5..7][i - 5] && t[i] == t[5..7][i - 5]; }
      else if 8 <= i < 10 { assert r[i] == r[8..10][i - 8] && t[i] == t[8..10][i - 8]; }
      else if 11 <= i < 13 { assert r[i] == r[11..13][i - 11] && t[i] == t[11..13][i - 11]; }
      else if 14 <= i < 16 { assert r[i] == r[14..16][i - 14] && t[i] == t[14..16][i - 14]; }
      else if 17 <= i < 19 { assert r[i] == r[17..19][i - 17] && t[i] == t[17..19][i - 17]; }
      else if 20 <= i < 22 { assert r[i] == r[20..22][i - 20] && t[i] == t[20..22][i - 20]; }
      else if 23 <= i < 25 { assert r[i] == r[23..25][i - 23] && t[i] == t[23..25][i - 23]; }
    }
  }
}
