/** The read loop of `findUTC.c`: buffers arrive as a sequence of reads, each read
    is classified as ending a line or not, and its timestamps are counted either
    once per line (table form) or by sliding a 25-character window along the text
    (text form). */
module Scanner {
  import opened Codes
  import opened CText
  import opened Matcher
  import opened Store

  /** `MAX_LINE_LEN`: the size of the line buffer handed to each read. */
  const MaxLineLen := 500

  /** The two parse forms the program implements. */
  datatype Mode = TableForm | TextForm

  /** What the loop keeps between reads: the counted timestamps, the line buffer,
      `line_fill_amount` and `full_line_read`. */
  datatype ScanState = ScanState(list: seq<Entry>, line: seq<char>, fill: nat, fullLineRead: bool)

  /** Where a text-form scan of one buffer stopped: the counted timestamps, the
      offset of the last window and that window as the matcher left it. */
  datatype TextScan = TextScan(list: seq<Entry>, offset: nat, carry: seq<char>)

  /** Before the first read the previous line counts as complete. */
  const Initial := ScanState([], [], MaxLineLen, true)

  /** A key the store may hold: a buffer the matcher accepts as it stands. */
  predicate Accepted(k: seq<char>) {
    FormatMatch(k, Utc8601) == Match(Validated, k)
  }

  /** The store is ordered and holds only accepted timestamps. */
  predicate GoodStore(list: seq<Entry>) {
    Sorted(list) && forall i :: 0 <= i < |list| ==> Accepted(list[i].key)
  }

  /** A buffer is a complete line exactly when its last character is a newline,
      which is then removed. */
  function StripNewline(buf: seq<char>): (r: (seq<char>, bool))
    requires |buf| > 0
    ensures r.1 <==> buf[|buf| - 1] == '\n'
    ensures buf == r.0 + (if r.1 then ['\n'] else [])
  {
    if buf[|buf| - 1] == '\n' then (buf[..|buf| - 1], true) else (buf, false)
  }

  /** The text-form window: at most 25 characters of the line from `offset` on. */
  function Window(line: seq<char>, offset: nat): (w: seq<char>)
    requires offset <= |line|
    ensures |w| <= MaxStampLen && w <= line[offset..]
    ensures |w| == MaxStampLen || w == line[offset..]
  {
    if |line| - offset <= MaxStampLen then line[offset..] else line[offset..offset + MaxStampLen]
  }

  /** Whether the text-form scan gives up after a window that did not match: too
      little text is left for the shortest form, or the line continues in the next
      read and too little is left for the longest one. */
  predicate StopsAt(line: seq<char>, offset: nat, complete: bool)
    requires offset <= |line|
  {
    (|line| - offset < MaxStampLen && !complete) || |line| - offset < MinStampLen
  }

  /** Counting one timestamp of the grammar keeps the store good. */
  lemma CountAccepted(list: seq<Entry>, k: seq<char>)
    requires GoodStore(list) && (IsZuluStamp(k) || IsOffsetStamp(k))
    ensures GoodStore(InsertOrMatch(list, k, true).list)
  {
    assert Accepted(k) && |k| <= KeyCapacity by { GrammarAccepted(k); }
    InsertKeepsSorted(list, k, true);
    var after := InsertOrMatch(list, k, true).list;
    assert Keys(after) == Keys(list) + {k} by { KeysAfter(list, k, true); }
    GoodKeys(list);
    forall i | 0 <= i < |after| ensures Accepted(after[i].key) {
      assert after[i].key in Keys(after);
    }
  }

  /** Every key of a good store is accepted. */
  lemma GoodKeys(list: seq<Entry>)
    requires GoodStore(list)
    ensures forall key :: key in Keys(list) ==> Accepted(key)
  {
    forall key | key in Keys(list) ensures Accepted(key) {
      var j :| 0 <= j < |list| && list[j].key == key;
    }
  }

  /** The text-form loop over one buffer from `offset`: a match is counted and the
      window moves on by 20, even after a 25-character match; a miss either ends the
      scan or moves the window on by one. */
  function ScanText(list: seq<Entry>, line: seq<char>, offset: nat, complete: bool): (r: TextScan)
    requires offset <= |line|
    ensures offset <= r.offset <= |line|
    ensures StopsAt(line, r.offset, complete)
    ensures var m := FormatMatch(Window(line, r.offset), Utc8601);
      m.code != Validated && r.carry == m.buf
    ensures r.carry <= line[r.offset..]
    ensures !complete ==> |r.carry| < MaxStampLen
    decreases |line| - offset
  {
    var m := FormatMatch(Window(line, offset), Utc8601);
    if m.code == Validated then
      ScanText(InsertOrMatch(list, m.buf, true).list, line, offset + MinStampLen, complete)
    else if StopsAt(line, offset, complete) then
      TextScan(list, offset, m.buf)
    else
      ScanText(list, line, offset + 1, complete)
  }

  /** What a partial line carries into the next read: its whole unscanned tail,
      unless the matcher's `Z` truncation cut the last window to 20 characters, in
      which case up to four characters after the `Z` are dropped. */
  lemma PartialLineCarry(list: seq<Entry>, line: seq<char>, offset: nat)
    requires offset <= |line|
    ensures var r := ScanText(list, line, offset, false);
      || r.carry == line[r.offset..]
      || (|line| - r.offset > MinStampLen && line[r.offset + 19] == 'Z'
          && r.carry == line[r.offset..r.offset + MinStampLen])
  {
    var r := ScanText(list, line, offset, false);
    PartialLineStop(list, line, offset);
    TailBuffer(line, r.offset);
  }

  /** The matcher leaves a tail of the line whole, or cut after a `Z` at 19. */
  lemma TailBuffer(line: seq<char>, at: nat)
    requires at <= |line|
    ensures var b := FormatMatch(line[at..], Utc8601).buf;
      || b == line[at..]
      || (|line| - at > MinStampLen && line[at + 19] == 'Z' && b == line[at..at + MinStampLen])
  {
    var w := line[at..];
    if |w| > MinStampLen {
      assert w[..MinStampLen] == line[at..at + MinStampLen];
    }
  }

  /** On a partial line the scan stops with fewer than 25 characters left, so its
      last window is the whole unscanned tail. */
  lemma PartialLineStop(list: seq<Entry>, line: seq<char>, offset: nat)
    requires offset <= |line|
    ensures var r := ScanText(list, line, offset, false);
      r.carry == FormatMatch(line[r.offset..], Utc8601).buf
  {
    var r := ScanText(list, line, offset, false);
    assert |line| - r.offset < MaxStampLen;
    assert Window(line, r.offset) == line[r.offset..];
  }

  /** The text-form scan keeps the store good. */
  lemma {:induction false} ScanTextGood(list: seq<Entry>, line: seq<char>, offset: nat, complete: bool)
    requires offset <= |line| && GoodStore(list)
    ensures GoodStore(ScanText(list, line, offset, complete).list)
    decreases |line| - offset
  {
    var m := FormatMatch(Window(line, offset), Utc8601);
    if m.code == Validated {
      MatchIdempotent(Window(line, offset));
      CountAccepted(list, m.buf);
      ScanTextGood(InsertOrMatch(list, m.buf, true).list, line, offset + MinStampLen, complete);
    } else if !StopsAt(line, offset, complete) {
      ScanTextGood(list, line, offset + 1, complete);
    }
  }

  /** Whether `k` starts somewhere in `line` at or after `from`. */
  predicate Occurs(k: seq<char>, line: seq<char>, from: nat) {
    exists i :: from <= i <= |line| - |k| && Piece(line, i, |k|) == k
  }

  /** The `n` characters of `line` from `i` on. */
  function Piece(line: seq<char>, i: nat, n: nat): seq<char>
    requires i + n <= |line|
  {
    line[i..i + n]
  }

  /** The text-form scan stores only keys it finds in the line: a key stored after
      the scan was stored before or occurs in the scanned part of the line. */
  lemma {:induction false} ScanStoresOnlyText(list: seq<Entry>, line: seq<char>, offset: nat,
                                              complete: bool, k: seq<char>)
    requires offset <= |line|
    ensures k in Keys(ScanText(list, line, offset, complete).list) ==> k in Keys(list) || Occurs(k, line, offset)
    decreases |line| - offset
  {
    var m := FormatMatch(Window(line, offset), Utc8601);
    if m.code == Validated {
      var next := InsertOrMatch(list, m.buf, true).list;
      assert Keys(next) == Keys(list) + {m.buf} by { KeysAfter(list, m.buf, true); }
      ScanStoresOnlyText(next, line, offset + MinStampLen, complete, k);
      if k == m.buf {
        WindowPiece(line, offset);
      } else {
        OccursFrom(k, line, offset, offset + MinStampLen);
      }
    } else if !StopsAt(line, offset, complete) {
      ScanStoresOnlyText(list, line, offset + 1, complete, k);
      OccursFrom(k, line, offset, offset + 1);
    }
  }

  /** What the matcher leaves in its buffer is a piece of the line at the window. */
  lemma WindowPiece(line: seq<char>, offset: nat)
    requires offset <= |line|
    ensures var b := FormatMatch(Window(line, offset), Utc8601).buf;
      offset + |b| <= |line| && Piece(line, offset, |b|) == b
  {
    var b := FormatMatch(Window(line, offset), Utc8601).buf;
    assert b <= line[offset..];
  }

  /** An occurrence from a later position is an occurrence from an earlier one. */
  lemma OccursFrom(k: seq<char>, line: seq<char>, a: nat, b: nat)
    requires a <= b
    ensures Occurs(k, line, b) ==> Occurs(k, line, a)
  {
    if Occurs(k, line, b) {
      var i :| b <= i <= |line| - |k| && Piece(line, i, |k|) == k;
      assert a <= i;
    }
  }

  /** A scan never drops a key: what was stored before is stored after. */
  lemma {:induction false} ScanKeepsKeys(list: seq<Entry>, line: seq<char>, offset: nat,
                                         complete: bool, k: seq<char>)
    requires offset <= |line| && k in Keys(list)
    ensures k in Keys(ScanText(list, line, offset, complete).list)
    decreases |line| - offset
  {
    var m := FormatMatch(Window(line, offset), Utc8601);
    if m.code == Validated {
      KeysAfter(list, m.buf, true);
      ScanKeepsKeys(InsertOrMatch(list, m.buf, true).list, line, offset + MinStampLen, complete, k);
    } else if !StopsAt(line, offset, complete) {
      ScanKeepsKeys(list, line, offset + 1, complete, k);
    }
  }

  /** A timestamp of the grammar starts at `i`: a Zulu one of 20 characters or an
      offset one of 25. */
  predicate StampAt(line: seq<char>, i: nat, n: nat) {
    && i + n <= |line|
    && (|| (n == MinStampLen && IsZuluStamp(line[i..i + n]))
        || (n == MaxStampLen && IsOffsetStamp(line[i..i + n])))
  }

  /** The window at the start of a timestamp is accepted and leaves exactly the
      timestamp: a Zulu one wins over whatever follows its `Z`. */
  lemma StampWindowMatches(line: seq<char>, i: nat, n: nat)
    requires StampAt(line, i, n)
    ensures FormatMatch(Window(line, i), Utc8601) == Match(Validated, line[i..i + n])
  {
    var w := Window(line, i);
    var t := line[i..i + n];
    if n == MinStampLen {
      assert forall k :: 0 <= k < MinStampLen ==> w[k] == t[k];
      assert w[..MinStampLen] == t;
      AcceptedLanguage(w);
    } else {
      assert w == t;
      GrammarAccepted(t);
    }
  }

  /** The first four characters of a timestamp are the digits of its year. */
  lemma YearDigitsAt(line: seq<char>, i: nat, n: nat)
    requires StampAt(line, i, n)
    ensures forall j :: i <= j < i + 4 ==> IsDigit(line[j])
  {
    var t := line[i..i + n];
    assert AllDigits(t[0..4]);
    forall j | i <= j < i + 4 ensures IsDigit(line[j]) {
      assert line[j] == t[0..4][j - i];
    }
  }

  /** The head of an accepted window: the five separators in place and no digit
      at position 19. */
  predicate AcceptedHead(line: seq<char>, o: nat)
    requires o + MinStampLen <= |line|
  {
    && line[o + 4] == '-' && line[o + 7] == '-' && line[o + 10] == 'T'
    && line[o + 13] == ':' && line[o + 16] == ':' && !IsDigit(line[o + 19])
  }

  /** An accepted window has that head. */
  lemma AcceptedWindowHead(line: seq<char>, o: nat)
    requires o <= |line| && FormatMatch(Window(line, o), Utc8601).code == Validated
    ensures o + MinStampLen <= |line| && AcceptedHead(line, o)
  {
    var b := FormatMatch(Window(line, o), Utc8601).buf;
    assert b <= line[o..];
    assert b[4] == line[o + 4] && b[7] == line[o + 7] && b[10] == line[o + 10];
    assert b[13] == line[o + 13] && b[16] == line[o + 16] && b[19] == line[o + 19];
  }

  /** No timestamp starts within 20 characters after the start of an accepted
      window: every run of four characters there meets a separator or position 19,
      where a year needs four digits. */
  lemma NoCloseStamp(line: seq<char>, o: nat, i: nat)
    requires o < i && o + MinStampLen <= |line| && AcceptedHead(line, o)
    requires i + 4 <= |line| && forall j :: i <= j < i + 4 ==> IsDigit(line[j])
    ensures i >= o + MinStampLen
  {
    assert !IsDigit(line[o + 4]) && !IsDigit(line[o + 7]) && !IsDigit(line[o + 10]);
    assert !IsDigit(line[o + 13]) && !IsDigit(line[o + 16]);
  }

  /** Every timestamp from `o` on is counted: in a complete line any of them, in a
      line that goes on in the next read those with at least 25 characters from
      their start to the end of the buffer. */
  lemma {:induction false} FindsStamp(list: seq<Entry>, line: seq<char>, o: nat, i: nat, n: nat, complete: bool)
    requires o <= i && StampAt(line, i, n)
    requires complete || i + MaxStampLen <= |line|
    ensures line[i..i + n] in Keys(ScanText(list, line, o, complete).list)
    decreases |line| - o
  {
    var m := FormatMatch(Window(line, o), Utc8601);
    if o == i {
      FindsStampHere(list, line, i, n, complete);
    } else if m.code == Validated {
      NoStampInsideMatch(line, o, i, n);
      FindsStamp(InsertOrMatch(list, m.buf, true).list, line, o + MinStampLen, i, n, complete);
    } else {
      assert !StopsAt(line, o, complete);
      FindsStamp(list, line, o + 1, i, n, complete);
    }
  }

  /** A scan that starts right at a timestamp counts it and keeps it. */
  lemma FindsStampHere(list: seq<Entry>, line: seq<char>, i: nat, n: nat, complete: bool)
    requires StampAt(line, i, n)
    requires complete || i + MaxStampLen <= |line|
    ensures line[i..i + n] in Keys(ScanText(list, line, i, complete).list)
  {
    var t := line[i..i + n];
    assert FormatMatch(Window(line, i), Utc8601) == Match(Validated, t) by { StampWindowMatches(line, i, n); }
    var next := InsertOrMatch(list, t, true).list;
    assert t in Keys(next) by { KeysAfter(list, t, true); }
    ScanKeepsKeys(next, line, i + MinStampLen, complete, t);
  }

  /** A timestamp never starts inside the 20 characters of an earlier match. */
  lemma NoStampInsideMatch(line: seq<char>, o: nat, i: nat, n: nat)
    requires o < i && StampAt(line, i, n)
    requires FormatMatch(Window(line, o), Utc8601).code == Validated
    ensures i >= o + MinStampLen
  {
    AcceptedWindowHead(line, o);
    YearDigitsAt(line, i, n);
    NoCloseStamp(line, o, i);
  }

  /** Every Zulu timestamp in a complete line is counted, and in a partial line
      every one that starts at least 25 characters before the end of the buffer. */
  lemma FindsZulu(list: seq<Entry>, line: seq<char>, o: nat, i: nat, complete: bool)
    requires o <= i && i + MinStampLen <= |line| && IsZuluStamp(line[i..i + MinStampLen])
    requires complete || i + MaxStampLen <= |line|
    ensures line[i..i + MinStampLen] in Keys(ScanText(list, line, o, complete).list)
  {
    FindsStamp(list, line, o, i, MinStampLen, complete);
  }

  /** Every offset timestamp in the buffer is counted, whether or not the line
      goes on in the next read. */
  lemma FindsOffset(list: seq<Entry>, line: seq<char>, o: nat, i: nat, complete: bool)
    requires o <= i && i + MaxStampLen <= |line| && IsOffsetStamp(line[i..i + MaxStampLen])
    ensures line[i..i + MaxStampLen] in Keys(ScanText(list, line, o, complete).list)
  {
    FindsStamp(list, line, o, i, MaxStampLen, complete);
  }

  /** The scan of a complete line, started on an empty store, stores exactly the
      timestamps of the grammar that occur in the line. */
  lemma CompleteLineKeys(line: seq<char>, k: seq<char>)
    ensures k in Keys(ScanText([], line, 0, true).list)
      <==> (IsZuluStamp(k) || IsOffsetStamp(k)) && Occurs(k, line, 0)
  {
    StoredKeyOccurs(line, k);
    if (IsZuluStamp(k) || IsOffsetStamp(k)) && Occurs(k, line, 0) {
      var i :| 0 <= i <= |line| - |k| && Piece(line, i, |k|) == k;
      if IsZuluStamp(k) {
        FindsZulu([], line, 0, i, true);
      } else {
        FindsOffset([], line, 0, i, true);
      }
    }
  }

  /** A key the scan stores from an empty store is a timestamp of the grammar that
      occurs in the line. */
  lemma StoredKeyOccurs(line: seq<char>, k: seq<char>)
    ensures k in Keys(ScanText([], line, 0, true).list) ==>
      (IsZuluStamp(k) || IsOffsetStamp(k)) && Occurs(k, line, 0)
  {
    var found := ScanText([], line, 0, true).list;
    if k in Keys(found) {
      ScanStoresOnlyText([], line, 0, true, k);
      assert GoodStore(found) by { ScanTextGood([], line, 0, true); }
      var j :| 0 <= j < |found| && found[j].key == k;
      assert Accepted(k);
      MatchIdempotent(k);
    }
  }

  /** How many times `k` starts in `line` at or after `from`. */
  function Occurrences(k: seq<char>, line: seq<char>, from: nat): nat
    decreases |line| - from
  {
    if |line| < from + |k| then 0
    else (if Piece(line, from, |k|) == k then 1 else 0) + Occurrences(k, line, from + 1)
  }

  /** A key occurs somewhere from `from` on exactly when it is counted there. */
  lemma {:induction false} OccurrencesPositive(k: seq<char>, line: seq<char>, from: nat)
    ensures Occurrences(k, line, from) > 0 <==> Occurs(k, line, from)
    decreases |line| - from
  {
    if |line| >= from + |k| {
      OccurrencesPositive(k, line, from + 1);
      if Occurs(k, line, from) && Piece(line, from, |k|) != k {
        var i :| from <= i <= |line| - |k| && Piece(line, i, |k|) == k;
        assert from + 1 <= i;
      }
    }
  }

  /** After an accepted window, the window's buffer is the timestamp starting
      there: any timestamp `k` starts at the window exactly when it is the buffer. */
  lemma HeadOccurrence(line: seq<char>, o: nat, k: seq<char>)
    requires o <= |line| && (IsZuluStamp(k) || IsOffsetStamp(k))
    requires FormatMatch(Window(line, o), Utc8601).code == Validated
    ensures o + |k| <= |line| && Piece(line, o, |k|) == k <==> FormatMatch(Window(line, o), Utc8601).buf == k
  {
    var m := FormatMatch(Window(line, o), Utc8601);
    WindowPiece(line, o);
    if o + |k| <= |line| && Piece(line, o, |k|) == k {
      assert StampAt(line, o, |k|);
      StampWindowMatches(line, o, |k|);
    }
  }

  /** A window that is not accepted starts no timestamp. */
  lemma NoOccurrenceAtMiss(line: seq<char>, o: nat, k: seq<char>)
    requires o <= |line| && (IsZuluStamp(k) || IsOffsetStamp(k))
    requires FormatMatch(Window(line, o), Utc8601).code != Validated
    ensures !(o + |k| <= |line| && Piece(line, o, |k|) == k)
  {
    if o + |k| <= |line| && Piece(line, o, |k|) == k {
      assert StampAt(line, o, |k|);
      StampWindowMatches(line, o, |k|);
    }
  }

  /** No timestamp starts inside the 20 characters of an accepted window, so
      those positions add nothing to the count. */
  lemma {:induction false} NoOccurrenceInside(line: seq<char>, o: nat, p: nat, k: seq<char>)
    requires o < p <= o + MinStampLen <= |line| && (IsZuluStamp(k) || IsOffsetStamp(k))
    requires FormatMatch(Window(line, o), Utc8601).code == Validated
    ensures Occurrences(k, line, p) == Occurrences(k, line, o + MinStampLen)
    decreases o + MinStampLen - p
  {
    if p < o + MinStampLen && |line| >= p + |k| {
      if Piece(line, p, |k|) == k {
        assert StampAt(line, p, |k|);
        NoStampInsideMatch(line, o, p, |k|);
      }
      NoOccurrenceInside(line, o, p + 1, k);
    }
  }

  /** The step of the count proof at an accepted window. */
  lemma CountAtMatch(list: seq<Entry>, line: seq<char>, o: nat, k: seq<char>)
    requires o <= |line| && (IsZuluStamp(k) || IsOffsetStamp(k))
    requires FormatMatch(Window(line, o), Utc8601).code == Validated
    ensures var b := FormatMatch(Window(line, o), Utc8601).buf;
      && o + MinStampLen <= |line|
      && Count(InsertOrMatch(list, b, true).list, k) + Occurrences(k, line, o + MinStampLen)
         == Count(list, k) + Occurrences(k, line, o)
  {
    var b := FormatMatch(Window(line, o), Utc8601).buf;
    CountFrame(list, b, true, k);
    HeadOccurrence(line, o, k);
    AcceptedWindowHead(line, o);
    NoOccurrenceInside(line, o, o + 1, k);
  }

  /** The text-form scan of a complete line counts every timestamp of the grammar
      once for each place it starts, from the scan's start on. */
  lemma {:induction false} ScanCounts(list: seq<Entry>, line: seq<char>, o: nat, k: seq<char>)
    requires o <= |line| && (IsZuluStamp(k) || IsOffsetStamp(k))
    ensures Count(ScanText(list, line, o, true).list, k) == Count(list, k) + Occurrences(k, line, o)
    decreases |line| - o
  {
    var m := FormatMatch(Window(line, o), Utc8601);
    if m.code == Validated {
      CountAtMatch(list, line, o, k);
      ScanCounts(InsertOrMatch(list, m.buf, true).list, line, o + MinStampLen, k);
    } else if StopsAt(line, o, true) {
      assert Occurrences(k, line, o) == 0;
    } else {
      NoOccurrenceAtMiss(line, o, k);
      ScanCounts(list, line, o + 1, k);
    }
  }

  /** The imperative form of the text-form loop, as `main` runs it on one buffer;
      it computes exactly the scan `ScanText` describes. */
  method ScanLine(list: seq<Entry>, line: seq<char>, complete: bool) returns (found: seq<Entry>, carry: seq<char>)
    ensures var r := ScanText(list, line, 0, complete);
      found == r.list && carry == r.carry
  {
    ghost var r := ScanText(list, line, 0, complete);
    var offset := 0;
    var looping := true;
    found, carry := list, [];
    while looping
      invariant offset <= |line|
      invariant looping ==> ScanText(found, line, offset, complete) == r
      invariant !looping ==> found == r.list && carry == r.carry
      decreases |line| - offset, if looping then 1 else 0
    {
      var m := FormatMatch(Window(line, offset), Utc8601);
      carry := m.buf;
      if m.code == Validated {
        found := InsertOrMatch(found, m.buf, true).list;
        offset := offset + MinStampLen;
      } else if (|line| - offset < MaxStampLen && !complete) || |line| - offset < MinStampLen {
        looping := false;
      } else {
        offset := offset + 1;
      }
    }
  }

  /** A state the read loop can be in: the read position lies within the line. */
  predicate Consistent(st: ScanState) {
    st.fill <= MaxLineLen && (!st.fullLineRead ==> MaxLineLen - st.fill <= |st.line|)
  }

  /** What the loop keeps between reads in each form: a good store; in table form
      every read starts at the front of the buffer; in text form a partial line
      leaves at most 24 characters, and the next read appends right after them. */
  predicate Inv(mode: Mode, st: ScanState) {
    && Consistent(st)
    && GoodStore(st.list)
    && (mode == TableForm ==> st.fill == MaxLineLen)
    && (mode == TextForm && !st.fullLineRead ==>
          |st.line| < MaxStampLen && st.fill == MaxLineLen - |st.line|)
  }

  /** The part of the line kept in front of the next read. */
  function Kept(st: ScanState): (k: seq<char>)
    requires Consistent(st)
    ensures st.fullLineRead ==> k == []
  {
    if st.fullLineRead then [] else st.line[..MaxLineLen - st.fill]
  }

  /** One pass of the loop on a read `chunk`: the read is appended after the kept
      part of the line, classified, and scanned in the chosen form. */
  function Step(mode: Mode, st: ScanState, chunk: seq<char>): (r: ScanState)
    requires |chunk| > 0 && Consistent(st)
    ensures Consistent(r)
    ensures r.fullLineRead <==> chunk[|chunk| - 1] == '\n'
  {
    var initial := st.fullLineRead;
    var fill := if initial then MaxLineLen else st.fill;
    var (line, complete) := StripNewline(Kept(st) + chunk);
    match mode
    case TableForm =>
      if !initial then ScanState(st.list, line, fill, complete)
      else
        var m := FormatMatch(line, Utc8601);
        var list := if m.code == Validated then InsertOrMatch(st.list, m.buf, true).list else st.list;
        ScanState(list, m.buf, fill, complete)
    case TextForm =>
      var s := ScanText(st.list, line, 0, complete);
      if complete then ScanState(s.list, line, fill, true)
      else ScanState(s.list, s.carry, MaxLineLen - |s.carry|, false)
  }

  /** Every pass keeps the loop's invariant. */
  lemma StepKeepsInv(mode: Mode, st: ScanState, chunk: seq<char>)
    requires |chunk| > 0 && Inv(mode, st)
    ensures Inv(mode, Step(mode, st, chunk))
  {
    var (line, complete) := StripNewline(Kept(st) + chunk);
    match mode
    case TableForm =>
      if st.fullLineRead {
        var m := FormatMatch(line, Utc8601);
        if m.code == Validated {
          MatchIdempotent(line);
          CountAccepted(st.list, m.buf);
        }
      }
    case TextForm =>
      ScanTextGood(st.list, line, 0, complete);
  }

  /** A read that ends its line. */
  predicate EndsLine(chunk: seq<char>) {
    |chunk| > 0 && chunk[|chunk| - 1] == '\n'
  }

  /** The whole loop over the reads that succeed before end of file. Whatever is
      still carried when the reads run out is not scanned again. */
  function Run(mode: Mode, st: ScanState, chunks: seq<seq<char>>): (r: ScanState)
    requires Consistent(st)
    requires forall i :: 0 <= i < |chunks| ==> |chunks[i]| > 0
    ensures Consistent(r)
    ensures |chunks| > 0 ==> (r.fullLineRead <==> EndsLine(chunks[|chunks| - 1]))
    decreases |chunks|
  {
    if |chunks| == 0 then st
    else
      assert |chunks| > 1 ==> chunks[1..][|chunks| - 2] == chunks[|chunks| - 1];
      Run(mode, Step(mode, st, chunks[0]), chunks[1..])
  }

  /** The loop is a fold over the reads: running two batches of reads one after the
      other is running them all. */
  lemma {:induction false} RunAppend(mode: Mode, st: ScanState, a: seq<seq<char>>, b: seq<seq<char>>)
    requires Consistent(st)
    requires forall i :: 0 <= i < |a| ==> |a[i]| > 0
    requires forall i :: 0 <= i < |b| ==> |b[i]| > 0
    ensures Run(mode, st, a + b) == Run(mode, Run(mode, st, a), b)
    decreases |a|
  {
    if |a| == 0 {
      assert a + b == b;
    } else {
      assert (a + b)[0] == a[0];
      assert (a + b)[1..] == a[1..] + b;
      RunAppend(mode, Step(mode, st, a[0]), a[1..], b);
    }
  }

  /** No sighting is ever forgotten: the text-form scan of a buffer only raises
      counts. */
  lemma {:induction false} ScanTextCountGrows(list: seq<Entry>, line: seq<char>, offset: nat, complete: bool, k: seq<char>)
    requires offset <= |line|
    ensures Count(ScanText(list, line, offset, complete).list, k) >= Count(list, k)
    decreases |line| - offset
  {
    var m := FormatMatch(Window(line, offset), Utc8601);
    if m.code == Validated {
      InsertCountGrows(list, m.buf, true, k);
      ScanTextCountGrows(InsertOrMatch(list, m.buf, true).list, line, offset + MinStampLen, complete, k);
    } else if !StopsAt(line, offset, complete) {
      ScanTextCountGrows(list, line, offset + 1, complete, k);
    }
  }

  /** Each pass of the loop only raises counts. */
  lemma StepCountGrows(mode: Mode, st: ScanState, chunk: seq<char>, k: seq<char>)
    requires |chunk| > 0 && Consistent(st)
    ensures Count(Step(mode, st, chunk).list, k) >= Count(st.list, k)
  {
    var (line, complete) := StripNewline(Kept(st) + chunk);
    match mode
    case TableForm =>
      if st.fullLineRead {
        var m := FormatMatch(line, Utc8601);
        if m.code == Validated {
          InsertCountGrows(st.list, m.buf, true, k);
        }
      }
    case TextForm =>
      ScanTextCountGrows(st.list, line, 0, complete, k);
  }

  /** A read that ends a line, in text form after a line that ended, adds to each
      timestamp's count the number of places it starts in that line: the count
      the program reports is the number of occurrences. */
  lemma LineCounts(st: ScanState, line: seq<char>, k: seq<char>)
    requires Consistent(st) && st.fullLineRead && (IsZuluStamp(k) || IsOffsetStamp(k))
    ensures Count(Step(TextForm, st, line + ['\n']).list, k) == Count(st.list, k) + Occurrences(k, line, 0)
  {
    assert Kept(st) + (line + ['\n']) == line + ['\n'];
    assert (line + ['\n'])[..|line|] == line;
    ScanCounts(st.list, line, 0, k);
  }

  /** Over the whole loop every count only grows, whatever the reads. */
  lemma {:induction false} RunCountGrows(mode: Mode, st: ScanState, chunks: seq<seq<char>>, k: seq<char>)
    requires Consistent(st)
    requires forall i :: 0 <= i < |chunks| ==> |chunks[i]| > 0
    ensures Count(Run(mode, st, chunks).list, k) >= Count(st.list, k)
    decreases |chunks|
  {
    if |chunks| > 0 {
      StepCountGrows(mode, st, chunks[0], k);
      RunCountGrows(mode, Step(mode, st, chunks[0]), chunks[1..], k);
    }
  }

  /** Whatever the input, the counted timestamps are strictly ascending and each is
      a buffer the matcher accepts. */
  lemma {:induction false} RunKeepsInv(mode: Mode, st: ScanState, chunks: seq<seq<char>>)
    requires Inv(mode, st)
    requires forall i :: 0 <= i < |chunks| ==> |chunks[i]| > 0
    ensures Inv(mode, Run(mode, st, chunks))
    decreases |chunks|
  {
    if |chunks| > 0 {
      StepKeepsInv(mode, st, chunks[0]);
      RunKeepsInv(mode, Step(mode, st, chunks[0]), chunks[1..]);
    }
  }

  lemma InitialInv(mode: Mode)
    ensures Inv(mode, Initial)
  {
  }

  /** Table form reads a line continuation without counting anything. */
  lemma TableSkipsContinuation(st: ScanState, chunk: seq<char>)
    requires |chunk| > 0 && Consistent(st) && !st.fullLineRead
    ensures Step(TableForm, st, chunk).list == st.list
  {
  }

  /** Table form counts the first read of a line once, as the matcher leaves it, when
      the matcher accepts it, and changes no other count. */
  lemma TableCountsLine(st: ScanState, chunk: seq<char>, k: seq<char>)
    requires |chunk| > 0 && Inv(TableForm, st) && st.fullLineRead
    ensures var m := FormatMatch(StripNewline(chunk).0, Utc8601);
      Count(Step(TableForm, st, chunk).list, k)
        == Count(st.list, k) + (if m.code == Validated && k == m.buf then 1 else 0)
  {
    assert Kept(st) + chunk == chunk;
    var m := FormatMatch(StripNewline(chunk).0, Utc8601);
    if m.code == Validated {
      CountFrame(st.list, m.buf, true, k);
    }
  }
}
