/** Behaviour of the read loop on small inputs: a timestamp split across two reads,
    and the tail still carried when the reads run out. */
module ScanExamples {
  import opened Codes
  import opened CText
  import opened Matcher
  import opened Store
  import opened Scanner

  /** A Zulu timestamp is accepted as it stands; it has digits and separators in
      front of the final `Z`, so no newline anywhere. */
  lemma AcceptedZulu(t: seq<char>)
    requires IsZuluStamp(t)
    ensures Accepted(t) && IsDigit(t[3])
    ensures forall i :: 0 <= i < |t| ==> t[i] != '\n'
  {
    assert forall i :: 0 <= i < |t| ==> t[i] != '\n' by { StampChars(t); }
    assert IsDigit(t[3]) by { StampChars(t); }
    assert Accepted(t) by { GrammarAccepted(t); }
  }

  /** The date and time part of a stamp holds only digits and separators: no `Z`,
      no newline, and four digits of year first. */
  lemma StampChars(t: seq<char>)
    requires |t| >= MinStampLen && SeparatorsOk(t) && FieldDigits(t)
    ensures forall i :: 0 <= i < 19 ==> t[i] != 'Z' && t[i] != '\n'
    ensures forall i :: 0 <= i < 4 ==> IsDigit(t[i])
  {
    forall i | 0 <= i < 19 ensures IsDigit(t[i]) || t[i] in {'-', 'T', ':'} {
      if i < 4 { assert t[i] == t[0..4][i]; }
      else if 5 <= i < 7 { assert t[i] == t[5..7][i - 5]; }
      else if 8 <= i < 10 { assert t[i] == t[8..10][i - 8]; }
      else if 11 <= i < 13 { assert t[i] == t[11..13][i - 11]; }
      else if 14 <= i < 16 { assert t[i] == t[14..16][i - 14]; }
      else if 17 <= i < 19 { assert t[i] == t[17..19][i - 17]; }
    }
  }

  /** A buffer too short for any timestamp is carried whole. */
  lemma ScanShort(list: seq<Entry>, line: seq<char>, complete: bool)
    requires |line| < MinStampLen
    ensures ScanText(list, line, 0, complete) == TextScan(list, 0, line)
  {
    assert Window(line, 0) == line;
  }

  /** One character in front of an accepted 20-character timestamp: in a line that
      goes on in the next read the scan gives up at once; in a complete line it
      finds the timestamp one character on. */
  lemma ScanLeadingChar(c: char, t: seq<char>, complete: bool)
    requires IsZuluStamp(t)
    ensures ScanText([], [c] + t, 0, complete).list == if complete then [Entry(t, 1)] else []
  {
    var line := [c] + t;
    AcceptedZulu(t);
    assert line[4] == t[3];
    assert Window(line, 0) == line;
    assert FormatMatch(line, Utc8601).code == InvalidFormat;
    if complete {
      assert Window(line, 1) == t;
      InsertIntoEmpty(t);
      assert Window(line, 21) == [];
      assert ScanText([Entry(t, 1)], line, 21, true).list == [Entry(t, 1)];
    }
  }

  /** A run of one read is one pass of the loop. */
  lemma RunSingle(mode: Mode, st: ScanState, a: seq<char>)
    requires Consistent(st) && |a| > 0
    ensures Run(mode, st, [a]) == Step(mode, st, a)
  {
    assert [a][1..] == [];
  }

  /** A run of two reads from the start is two passes. */
  lemma RunTwo(mode: Mode, a: seq<char>, b: seq<char>)
    requires |a| > 0 && |b| > 0
    ensures Run(mode, Initial, [a, b]) == Step(mode, Step(mode, Initial, a), b)
  {
    assert [a, b] == [a] + [b];
    RunAppend(mode, Initial, [a], [b]);
    RunSingle(mode, Initial, a);
    RunSingle(mode, Step(mode, Initial, a), b);
  }

  /** The next read is scanned behind the carry. */
  lemma NextReadAppended(p: seq<char>, q: seq<char>)
    requires 0 < |p| < MaxStampLen
    ensures Step(TextForm, ScanState([], p, MaxLineLen - |p|, false), q + ['\n']).list
      == ScanText([], p + q, 0, true).list
  {
    var st := ScanState([], p, MaxLineLen - |p|, false);
    assert Kept(st) == p;
    assert p + (q + ['\n']) == (p + q) + ['\n'];
  }

  /** The only read of the input, scanned from an empty store. */
  lemma OnlyRead(line: seq<char>, complete: bool)
    requires |line| > 0 && line[|line| - 1] != '\n'
    ensures var chunk := if complete then line + ['\n'] else line;
      Step(TextForm, Initial, chunk).list == ScanText([], line, 0, complete).list
  {
    var chunk := if complete then line + ['\n'] else line;
    assert Kept(Initial) + chunk == chunk;
  }

  /** Text without a `-` or a newline, standing for the running text in front of
      a timestamp. */
  predicate Filler(f: seq<char>) {
    forall i :: 0 <= i < |f| ==> f[i] != '-' && f[i] != '\n'
  }

  /** Windows whose fifth character is not a `-` all miss: while the scan may go on,
      it moves on one character at a time without counting anything. */
  lemma {:induction false} SkipMisses(list: seq<Entry>, line: seq<char>, o: nat, e: nat, complete: bool)
    requires o <= e && e + 4 <= |line|
    requires forall k :: o <= k < e ==> !StopsAt(line, k, complete)
    requires forall i :: o + 4 <= i < e + 4 ==> line[i] != '-'
    ensures ScanText(list, line, o, complete) == ScanText(list, line, e, complete)
    decreases e - o
  {
    if o < e {
      var w := Window(line, o);
      assert !StopsAt(line, o, complete);
      assert |w| >= MinStampLen && w[4] == line[o + 4];
      assert !SeparatorsOk(w);
      SkipMisses(list, line, o + 1, e, complete);
    }
  }

  /** A full first read (499 characters, no newline) of running text ending in the
      first `|p|` characters of a timestamp: nothing is counted and the last 24
      characters are carried. */
  lemma FullFirstRead(f: seq<char>, p: seq<char>)
    requires Filler(f) && 0 < |p| < MinStampLen && |f| + |p| == MaxLineLen - 1
    requires p[|p| - 1] != '\n'
    ensures Step(TextForm, Initial, f + p)
      == ScanState([], (f + p)[MaxLineLen - MaxStampLen..], MaxLineLen - (MaxStampLen - 1), false)
  {
    var line := f + p;
    assert Kept(Initial) + line == line;
    assert StripNewline(line) == (line, false);
    TailScan(f, p);
  }

  lemma TailScan(f: seq<char>, p: seq<char>)
    requires Filler(f) && 0 < |p| < MinStampLen && |f| + |p| == MaxLineLen - 1
    ensures ScanText([], f + p, 0, false)
      == TextScan([], MaxLineLen - MaxStampLen, (f + p)[MaxLineLen - MaxStampLen..])
  {
    var line := f + p;
    var e := |line| - (MaxStampLen - 1);
    SkipMisses([], line, 0, e, false);
    var w := Window(line, e);
    assert w == line[e..] && w[4] == f[e + 4];
    assert FormatMatch(w, Utc8601) == Match(InvalidFormat, w);
  }

  /** Running text without a `-` in front of a timestamp, in a complete line: the
      timestamp is counted once. */
  lemma StampAfterFiller(list: seq<Entry>, g: seq<char>, t: seq<char>)
    requires Filler(g) && IsZuluStamp(t)
    ensures ScanText(list, g + t, 0, true).list == InsertOrMatch(list, t, true).list
  {
    var line := g + t;
    AcceptedZulu(t);
    StampChars(t);
    SkipMisses(list, line, 0, |g|, true);
    assert Window(line, |g|) == t;
    var after := InsertOrMatch(list, t, true).list;
    assert Window(line, |g| + MinStampLen) == [];
    assert ScanText(after, line, |g| + MinStampLen, true).list == after;
  }

  /** A timestamp cut by the boundary between a full first read and the read that
      ends the line is carried into the next read and counted once. */
  lemma SplitAcrossReads(f: seq<char>, p: seq<char>, q: seq<char>)
    requires Filler(f) && |f| + |p| == MaxLineLen - 1
    requires 0 < |p| < MinStampLen && |p| + |q| == MinStampLen && IsZuluStamp(p + q)
    ensures Run(TextForm, Initial, [f + p, q + ['\n']]).list == [Entry(p + q, 1)]
  {
    var g := f[MaxLineLen - MaxStampLen..];
    assert p[|p| - 1] != '\n' by { AcceptedZulu(p + q); assert p[|p| - 1] == (p + q)[|p| - 1]; }
    SeamRescanned(f, p, q);
    assert ScanText([], g + (p + q), 0, true).list == [Entry(p + q, 1)] by {
      assert Filler(g) by { FillerSuffix(f, MaxLineLen - MaxStampLen); }
      StampAfterFiller([], g, p + q);
      InsertIntoEmpty(p + q);
    }
  }

  /** A full first read ending in a short piece `p` of a line, then the read that
      ends the line: the line is rescanned from the last 24 characters of the
      first read. */
  lemma SeamRescanned(f: seq<char>, p: seq<char>, q: seq<char>)
    requires Filler(f) && |f| + |p| == MaxLineLen - 1
    requires 0 < |p| < MinStampLen && p[|p| - 1] != '\n'
    ensures Run(TextForm, Initial, [f + p, q + ['\n']]).list
      == ScanText([], f[MaxLineLen - MaxStampLen..] + (p + q), 0, true).list
  {
    var c := (f + p)[MaxLineLen - MaxStampLen..];
    var first := ScanState([], c, MaxLineLen - |c|, false);
    FullFirstRead(f, p);
    RunTwo(TextForm, f + p, q + ['\n']);
    NextReadAppended(c, q);
    SuffixOfJoin(f, p, q, MaxLineLen - MaxStampLen);
  }

  lemma SuffixOfJoin(a: seq<char>, b: seq<char>, c: seq<char>, n: nat)
    requires n <= |a|
    ensures (a + b)[n..] + c == a[n..] + (b + c)
  {
    assert (a + b)[n..] == a[n..] + b;
  }

  lemma FillerSuffix(f: seq<char>, n: nat)
    requires Filler(f) && n <= |f|
    ensures Filler(f[n..])
  {
    forall i | 0 <= i < |f| - n ensures f[n..][i] != '-' && f[n..][i] != '\n' {
      assert f[n..][i] == f[n + i];
    }
  }

  /** Twenty characters shaped like a Zulu timestamp but naming no valid instant. */
  predicate BadZulu(b: seq<char>) {
    |b| == MinStampLen && SeparatorsOk(b) && FieldDigits(b) && b[19] == 'Z' && !IsZuluStamp(b)
  }

  /** A full first read whose last 24 characters are a rejected Zulu-shaped stamp `b`
      and four more characters `y`: the matcher's truncation leaves only `b` as the
      carry, and `y` is dropped. */
  lemma FirstReadCut(f: seq<char>, b: seq<char>, y: seq<char>)
    requires Filler(f) && |f| + MaxStampLen - 1 == MaxLineLen - 1
    requires BadZulu(b) && |y| == 4 && y[3] != '\n'
    ensures Step(TextForm, Initial, f + (b + y)) == ScanState([], b, MaxLineLen - MinStampLen, false)
  {
    var line := f + (b + y);
    assert Kept(Initial) + line == line;
    assert StripNewline(line) == (line, false);
    CutScan(f, b, y);
  }

  lemma CutScan(f: seq<char>, b: seq<char>, y: seq<char>)
    requires Filler(f) && |f| + MaxStampLen - 1 == MaxLineLen - 1
    requires BadZulu(b) && |y| == 4
    ensures ScanText([], f + (b + y), 0, false) == TextScan([], |f|, b)
  {
    var line := f + (b + y);
    assert forall i :: 4 <= i < |f| + 4 ==> line[i] != '-' by { NoDashUpToStamp(f, b, y); }
    SkipMisses([], line, 0, |f|, false);
    assert Window(line, |f|) == b + y;
    CutWindow(b, y);
  }

  lemma NoDashUpToStamp(f: seq<char>, b: seq<char>, y: seq<char>)
    requires Filler(f) && BadZulu(b)
    ensures forall i :: 4 <= i < |f| + 4 ==> (f + (b + y))[i] != '-'
  {
    StampChars(b);
    var line := f + (b + y);
    forall i | 4 <= i < |f| + 4 ensures line[i] != '-' {
      if i < |f| { assert line[i] == f[i]; } else { assert line[i] == (b + y)[i - |f|] == b[i - |f|]; }
    }
  }

  /** The rejected stamp followed by four characters: not accepted, and cut back to
      the stamp. */
  lemma CutWindow(b: seq<char>, y: seq<char>)
    requires BadZulu(b) && |y| == 4
    ensures FormatMatch(b + y, Utc8601).code != Validated
    ensures FormatMatch(b + y, Utc8601).buf == b
  {
    var w := b + y;
    assert w[..MinStampLen] == b;
    assert SeparatorsOk(w);
    AcceptedLanguage(w);
  }

  /** A valid Zulu timestamp `t` does not occur in the rescanned line `b + t[4..]`:
      the only `Z` that could close it is the one ending `b`, and `b` is not `t`. */
  lemma CutStampAbsent(b: seq<char>, t: seq<char>)
    requires BadZulu(b) && IsZuluStamp(t)
    ensures !Occurs(t, b + t[4..], 0)
  {
    var line := b + t[4..];
    StampChars(t);
    forall i | 0 <= i <= |line| - |t| ensures Piece(line, i, |t|) != t {
      if i == 0 {
        assert Piece(line, i, |t|) == b;
      } else if i < 16 {
        assert Piece(line, i, |t|)[19] == t[i + 3];
      } else {
        assert Piece(line, i, |t|)[0] == b[16];
      }
    }
  }

  /** A timestamp whose first four characters end a full read right behind a
      rejected Zulu-shaped stamp is never counted: the rejected window is cut at its
      `Z`, the four characters after it are not carried, and what the next read
      rescans no longer holds the timestamp, although the two reads together do. */
  lemma ZuluCutLosesStamp(f: seq<char>, b: seq<char>, t: seq<char>)
    requires Filler(f) && |f| + MaxStampLen - 1 == MaxLineLen - 1
    requires BadZulu(b) && IsZuluStamp(t)
    ensures (f + (b + t[..4])) + t[4..] == f + (b + t)
    ensures t !in Keys(Run(TextForm, Initial, [f + (b + t[..4]), t[4..] + ['\n']]).list)
  {
    assert t[..4][3] != '\n' by { StampChars(t); assert t[..4][3] == t[3]; }
    CutRescanned(f, b, t[..4], t[4..]);
    assert t !in Keys(ScanText([], b + t[4..], 0, true).list) by {
      CutStampAbsent(b, t);
      ScanStoresOnlyText([], b + t[4..], 0, true, t);
      assert t !in Keys([]);
    }
    JoinBack(f, b, t, 4);
  }

  lemma JoinBack(f: seq<char>, b: seq<char>, t: seq<char>, n: nat)
    requires n <= |t|
    ensures (f + (b + t[..n])) + t[n..] == f + (b + t)
  {
    assert t[..n] + t[n..] == t;
  }

  /** After the cut first read, the read that ends the line is rescanned behind the
      rejected stamp alone. */
  lemma CutRescanned(f: seq<char>, b: seq<char>, y: seq<char>, q: seq<char>)
    requires Filler(f) && |f| + MaxStampLen - 1 == MaxLineLen - 1
    requires BadZulu(b) && |y| == 4 && y[3] != '\n'
    ensures Run(TextForm, Initial, [f + (b + y), q + ['\n']]).list == ScanText([], b + q, 0, true).list
  {
    FirstReadCut(f, b, y);
    RunTwo(TextForm, f + (b + y), q + ['\n']);
    NextReadAppended(b, q);
  }

  /** The carried tail of a read is never rescanned at end of file: a timestamp
      behind one leading character in a last read without newline is not counted. */
  lemma CarryLostAtEnd(c: char, t: seq<char>)
    requires IsZuluStamp(t) && c != '\n'
    ensures Run(TextForm, Initial, [[c] + t]).list == []
  {
    AcceptedZulu(t);
    ScanLeadingChar(c, t, false);
    RunSingle(TextForm, Initial, [c] + t);
    OnlyRead([c] + t, false);
  }

  /** The same read, ending the line, counts the timestamp. */
  lemma LineEndRescans(c: char, t: seq<char>)
    requires IsZuluStamp(t) && c != '\n'
    ensures Run(TextForm, Initial, [[c] + t + ['\n']]).list == [Entry(t, 1)]
  {
    AcceptedZulu(t);
    ScanLeadingChar(c, t, true);
    RunSingle(TextForm, Initial, [c] + t + ['\n']);
    OnlyRead([c] + t, true);
  }

  /** Two copies of an accepted timestamp back to back: the first window holds the
      first copy and five characters of the second, which the `Z` cuts off. */
  lemma FirstOfTwo(t: seq<char>)
    requires IsZuluStamp(t)
    ensures FormatMatch(Window(t + t, 0), Utc8601) == Match(Validated, t)
  {
    var w := Window(t + t, 0);
    assert w == (t + t)[..MaxStampLen];
    assert w[..MinStampLen] == t;
    AcceptedZulu(t);
    assert SeparatorsOk(w) by {
      assert SeparatorsOk(t);
    }
    TrailingAfterZuluIgnored(w);
  }

  /** Scanning a complete line that holds the same timestamp twice finds it at
      offsets 0 and 20. */
  lemma ScanTwice(t: seq<char>)
    requires IsZuluStamp(t)
    ensures ScanText([], t + t, 0, true).list == [Entry(t, 2)]
  {
    var line := t + t;
    FirstOfTwo(t);
    InsertIntoEmpty(t);
    var once := [Entry(t, 1)];
    assert Window(line, MinStampLen) == t;
    AcceptedZulu(t);
    assert Slot(once, t) == 0;
    var twice := InsertOrMatch(once, t, true).list;
    assert twice == [Entry(t, 2)];
    assert Window(line, 2 * MinStampLen) == [];
    assert ScanText(twice, line, 2 * MinStampLen, true).list == twice;
    assert ScanText(once, line, MinStampLen, true).list == twice;
  }

  /** A line holding the same timestamp twice gives one entry counted twice. */
  lemma RepeatedStamp(t: seq<char>)
    requires IsZuluStamp(t)
    ensures Run(TextForm, Initial, [t + t + ['\n']]).list == [Entry(t, 2)]
  {
    var line := t + t;
    AcceptedZulu(t);
    assert line[|line| - 1] == t[19];
    ScanTwice(t);
    RunSingle(TextForm, Initial, line + ['\n']);
    OnlyRead(line, true);
  }
  /** A read that ends a line of running text without a `-` followed by a
      timestamp, after a line that ended: the timestamp is counted once. */
  lemma FillerLineRead(st: ScanState, g: seq<char>, t: seq<char>)
    requires Consistent(st) && st.fullLineRead && Filler(g) && IsZuluStamp(t)
    ensures Step(TextForm, st, g + t + ['\n']).list == InsertOrMatch(st.list, t, true).list
  {
    var chunk := g + t + ['\n'];
    assert Kept(st) + chunk == chunk;
    assert chunk[..|chunk| - 1] == g + t;
    StampAfterFiller(st.list, g, t);
  }

  /** Two lines, each of running text and the same timestamp, read one after the
      other: one entry counted twice. */
  lemma TwoLines(g1: seq<char>, g2: seq<char>, t: seq<char>)
    requires Filler(g1) && Filler(g2) && IsZuluStamp(t)
    ensures Run(TextForm, Initial, [g1 + t + ['\n'], g2 + t + ['\n']]).list == [Entry(t, 2)]
  {
    var first := Step(TextForm, Initial, g1 + t + ['\n']);
    RunTwo(TextForm, g1 + t + ['\n'], g2 + t + ['\n']);
    AcceptedZulu(t);
    FillerLineRead(Initial, g1, t);
    InsertIntoEmpty(t);
    assert first.list == [Entry(t, 1)];
    FillerLineRead(first, g2, t);
    assert Slot(first.list, t) == 0;
  }
}
