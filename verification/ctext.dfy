/** The C library's character classes and `atoi`, in the "C" locale. */
module CText {

  /** `isdigit`: the ASCII digits. */
  predicate IsDigit(c: char) {
    '0' <= c <= '9'
  }

  /** `isspace`: blank, tab, newline, vertical tab, form feed and carriage return. */
  predicate IsSpace(c: char) {
    c == ' ' || 9 <= c as int <= 13
  }

  function DigitValue(c: char): (d: nat)
    requires IsDigit(c)
    ensures d <= 9
  {
    (c as int) - ('0' as int)
  }

  predicate AllDigits(s: seq<char>) {
    forall i :: 0 <= i < |s| ==> IsDigit(s[i])
  }

  function Pow10(n: nat): (p: nat)
    ensures p >= 1
  {
    if n == 0 then 1 else 10 * Pow10(n - 1)
  }

  /** Value of a string of decimal digits, most significant first. */
  function Decimal(s: seq<char>): nat
    requires AllDigits(s)
  {
    if |s| == 0 then 0 else 10 * Decimal(s[..|s| - 1]) + DigitValue(s[|s| - 1])
  }

  /** A string of `n` digits holds a value below 10^n. */
  lemma {:induction false} DecimalBound(s: seq<char>)
    requires AllDigits(s)
    ensures Decimal(s) < Pow10(|s|)
  {
    if |s| > 0 {
      DecimalBound(s[..|s| - 1]);
    }
  }

  /** Length of the longest prefix of `s` that consists of digits. */
  function DigitRun(s: seq<char>): (n: nat)
    ensures n <= |s|
    ensures AllDigits(s[..n])
    ensures n < |s| ==> !IsDigit(s[n])
  {
    if |s| > 0 && IsDigit(s[0]) then
      var n := 1 + DigitRun(s[1..]);
      assert forall i :: 1 <= i < n ==> s[..n][i] == s[1..][..n - 1][i - 1];
      n
    else 0
  }

  /** Larger exponents give larger powers. */
  lemma {:induction false} Pow10Grows(a: nat, b: nat)
    requires a <= b
    ensures Pow10(a) <= Pow10(b)
    decreases b - a
  {
    if a < b {
      Pow10Grows(a, b - 1);
    }
  }

  /** `atoi` on a string without NUL: leading white space is skipped, one sign is
      read, then the leading digits; no digits at all read as 0. The value never
      has more digits than the string has characters. */
  function Atoi(s: seq<char>): (r: int)
    ensures -(Pow10(|s|) as int) < r < Pow10(|s|)
  {
    if |s| > 0 && IsSpace(s[0]) then
      Pow10Grows(|s| - 1, |s|);
      Atoi(s[1..])
    else if |s| > 0 && (s[0] == '+' || s[0] == '-') then
      var run := s[1..][..DigitRun(s[1..])];
      DecimalBound(run);
      Pow10Grows(|run|, |s|);
      var v: int := Decimal(run);
      if s[0] == '-' then -v else v
    else
      var run := s[..DigitRun(s)];
      DecimalBound(run);
      Pow10Grows(|run|, |s|);
      Decimal(run)
  }

  /** On a string made only of digits `atoi` is the decimal value. */
  lemma AtoiOfDigits(s: seq<char>)
    requires AllDigits(s)
    ensures Atoi(s) == Decimal(s)
  {
    var n := DigitRun(s);
    assert s[..n] == s;
  }

  /** `atoi` on a two-character string whose second character is a digit: two digits,
      a blank or '+' then a digit, '-' then a digit, and everything else. */
  lemma AtoiPair(c0: char, c1: char)
    requires IsDigit(c1)
    ensures IsDigit(c0) ==> Atoi([c0, c1]) == 10 * DigitValue(c0) + DigitValue(c1)
    ensures IsSpace(c0) || c0 == '+' ==> Atoi([c0, c1]) == DigitValue(c1)
    ensures c0 == '-' ==> Atoi([c0, c1]) == -(DigitValue(c1) as int)
    ensures !IsDigit(c0) && !IsSpace(c0) && c0 != '+' && c0 != '-' ==> Atoi([c0, c1]) == 0
  {
    var s := [c0, c1];
    assert s[1..] == [c1];
    AtoiOfDigits([c1]);
    assert Decimal([c1]) == DigitValue(c1) by {
      assert [c1][..0] == [];
    }
    if IsDigit(c0) {
      AtoiOfDigits(s);
      assert s[..1] == [c0];
      assert s[..1][..0] == [];
    } else if !IsSpace(c0) && c0 != '+' && c0 != '-' {
      assert DigitRun(s) == 0;
      assert s[..0] == [];
    }
  }
}
