# findUTC — a Dafny model of the UTC-8601 timestamp finder

`findUTC` reads a text file and reports the valid ISO 8601 / UTC
timestamps it finds in it, with how often each one occurs. A timestamp is
`YYYY-MM-DDThh:mm:ssZ` (20 characters) or `YYYY-MM-DDThh:mm:ss+hh:mm` /
`-hh:mm` (25 characters). The program has two forms:

- In table form, each line holds at most one timestamp.
- In text form, a line is scanned character by character, and timestamps may
  sit anywhere in running text.

Valid timestamps go into a doubly linked list that is kept in `strcmp` order.
Each list entry carries a count.

This project models the library (`UTClib.c`, `UTClib.h`) and the read/scan
loop of `findUTC.c`, and proves properties of that model:

| module | file | models |
|---|---|---|
| `Codes` | `codes.dfy` | the return codes `code_t` and request formats `format_t` |
| `CText` | `ctext.dfy` | the C character and string helpers the code relies on: `isdigit`, `isspace`, `atoi` |
| `Calendar` | `calendar.dfy` | `valid_date`, `valid_time`, with Gregorian reference definitions |
| `Matcher` | `matcher.dfy` | `format_match` for `UTC8601`, with a reference grammar of the accepted timestamps |
| `Stamps` | `stamps.dfy` | a structured timestamp value, its rendering and parsing, and the round trips with the matcher |
| `Store` | `store.dfy` | `strcmp`, `make_entry`, `insert_or_match` on the sorted, counted list |
| `Scanner` | `scanner.dfy` | the `main` read loop: line completion, table form, text-form scan with carry-over |
| `ScanExamples` | `scan_examples.dfy` | whole-run scenarios of the read loop |
| `Examples` | `examples.dfy` | concrete dates, times, buffers and lists |

Modelling choices:

- C strings are `seq<char>` without NUL characters, so `strlen` is the length.
- `isdigit` is the ASCII test. `isspace` accepts the space and codes 9–13.
- `atoi` is modelled in general: it skips leading whitespace, reads one sign,
  then reads digits. This matters because `format_match` converts the offset
  hour with `atoi` without checking its first digit.
- The linked list is a `seq<Entry>` in list order. The `next`/`prev` pointer
  surgery of `insert_or_match` becomes a sequence insertion at the slot where
  the walk stops.
- Whether `calloc` succeeds is a boolean parameter `alloc`.
- `fgets` is abstracted as a sequence of non-empty chunks. Each chunk is what
  one call delivers into the buffer after the kept part of the line. The
  general lemmas hold for any such sequence; the whole-run scenarios state the
  shape `fgets` gives in their preconditions: a read that does not end its line
  fills the buffer to 499 characters.
- In table form, the first read of a long line is matched on its own, and the
  following reads of that line are skipped, as the comment at findUTC.c:210
  says.

Where the code's behaviour differs from what its comments or the timestamp
profile above lead a reader to expect, the model follows the code:

- The header comment of `format_match` (UTClib.c:141) asks for `+hh:mm` or
  `-hh:mm`, but the offset digit loop (UTClib.c:225) checks positions 21, 23
  and 24 only. Position 20 goes straight to `atoi`, so `+ 5:30` and `-+5:30`
  are accepted, as hours 5 and 5.
- In a buffer of length 21–25 whose separators are in place, a `Z` at
  position 19 cuts the buffer to its first 20 characters, as the comment at
  UTClib.c:189-190 announces. What follows the `Z` is ignored: the buffer is
  then judged on its date and time fields alone, as a Zulu timestamp.
- The comments at UTClib.c:43 and UTClib.c:137 give the day as 01–31, but
  `valid_date` checks only the upper bound. A day of `00` (in general, any
  day ≤ 0) is accepted.
- In text form, a partial line carried into the next read is lost if the file
  ends without a newline. Its timestamp is then never counted.
- In text form, the comment at findUTC.c:283 speaks of saving the remaining
  19 characters of a long line, but the code copies the last window as
  `format_match` left it. When that window has a `Z` at position 19 and is
  rejected, it has been cut to 20 characters, so up to four characters after
  the `Z` are lost. A timestamp starting right after such a `Z` and cut by the
  read boundary is never counted, although the line holds it whole.

## Model

| member | source | states |
|---|---|---|
| Calendar.ValidDate | UTClib.c:52-95 | unknown format is INVALID_REQUEST; otherwise INVALID_YEAR exactly outside 0..9999, INVALID_MONTH exactly for a valid year and month outside 1..12, INVALID_DAY exactly when the day exceeds the Gregorian length of that month |
| Calendar.ValidTime | UTClib.c:107-131 | hh:mm:ss is VALIDATED exactly for a clock time (0–23, 0–59, 0–59) and hh:mm exactly for a clock hour and minute; the second is checked first, then the minute, then the hour; other formats are INVALID_REQUEST |
| Calendar.LeapRuleIsGregorian | UTClib.c:79-84 | the source's leap-year condition agrees with the Gregorian rule for every year |
| Calendar.LeapDay | UTClib.c:79-89 | 29 February is accepted exactly in Gregorian leap years within range |
| Calendar.NonPositiveDayAccepted | UTClib.c:85-89 | only the upper bound of the day is checked, so a day of 0 or less passes |
| Calendar.SecondsFallThrough | UTClib.c:111-126 | once the second is in range, hh:mm:ss gives the same verdict as hh:mm on the same hour and minute |
| CText.DecimalBound | UTClib.c:233-234 | a run of n digits denotes a value below 10^n |
| CText.AtoiOfDigits | UTClib.c:233-242 | `atoi` of a field made of digits is its decimal value |
| CText.AtoiPair | UTClib.c:267-270 | `atoi` of a two-character field with a digit second: two digits, leading blank or plus, leading minus, or anything else (value 0) |
| CText.Atoi | UTClib.c:233-274 | the value `atoi` reads from a field has at most as many digits as the field has characters, of either sign: its magnitude is below 10^n for a field of n characters |
| Matcher.FormatMatch | UTClib.c:148-288 | other formats and lengths outside 20..25 or misplaced separators are INVALID_FORMAT; a 20-character buffer without Z, a 21–24-character one without Z, and a bad sign or colon at 25 are INVALID_TMZ; Z truncates the buffer to 20; an accepted buffer has the full field shape |
| Matcher.DigitsAtEach | UTClib.c:214-232 | the loop over the position table checks exactly the positions listed in its range |
| Matcher.DigitsAtFields | UTClib.c:162-222 | the first fourteen table positions are exactly the digits of year, month, day, hour, minute and second |
| Matcher.CheckFieldsAccepts | UTClib.c:211-287 | after the shape checks the field checks accept exactly the Zulu and offset grammar |
| Matcher.AcceptedLanguage | UTClib.c:148-288 | a buffer is VALIDATED exactly when it is an offset timestamp, or a 20–25-character buffer whose first 20 characters are a Zulu timestamp |
| Matcher.TrailingAfterZuluIgnored | UTClib.c:187-196 | with a Z at position 19, the verdict on a buffer is the verdict on its first 20 characters |
| Matcher.GrammarAccepted | UTClib.c:148-288 | every Zulu or offset timestamp of the grammar is accepted as it stands |
| Matcher.MatchIdempotent | UTClib.c:187-196 | the buffer left by an accepted match is a timestamp of the grammar and is itself accepted unchanged |
| Matcher.CheckFieldsOrder | UTClib.c:214-282 | non-digit date or time fields are INVALID_FORMAT, non-digit offset fields are INVALID_TMZ, otherwise the date verdict, then the time verdict, then the offset range decide |
| Matcher.LaterChecksInOrder | UTClib.c:211-282 | the same order of errors stated for any buffer that passed the shape and timezone checks |
| Matcher.YearFieldInRange | UTClib.c:66-72 | once the date and time positions are digits, the four-digit year lies in 0..9999, so the field checks never give INVALID_YEAR |
| Matcher.YearNeverRejected | UTClib.c:66-72 | no buffer and no request format ever makes `format_match` report INVALID_YEAR |
| Matcher.FieldValues | UTClib.c:233-261 | each date and time field, copied out and converted with `atoi`, yields its decimal value |
| Matcher.OffsetValues | UTClib.c:267-281 | the offset hour is read with `atoi` from positions 20–21 and the offset minute is the decimal value of positions 23–24 |
| Stamps.RenderInGrammar | UTClib.c:133-147 | a timestamp in range renders to a buffer in the Zulu or offset grammar that parses back to it |
| Stamps.RenderAccepted | UTClib.c:148-288 | every rendered timestamp in range is accepted unchanged by the matcher |
| Stamps.ParseRender | UTClib.c:233-281 | parsing a rendered timestamp gives it back |
| Stamps.ParseInRange | UTClib.c:245-281 | the fields of a buffer in the grammar lie in the accepted ranges |
| Stamps.RenderParse | UTClib.c:267-270 | rendering a parsed buffer gives it back exactly when it is Zulu or its offset hour starts with a digit |
| Stamps.TwoRoundTrip | UTClib.c:237-242 | two-digit fields and numbers below 100 convert into each other both ways |
| Store.Compare | UTClib.c:335-336 | `strcmp` reports equality exactly for equal strings |
| Store.CompareIsLexicographic | UTClib.c:335-365 | `strcmp` order is the lexicographic order of characters, a proper prefix first |
| Store.CompareFlip | UTClib.c:342-365 | less in one direction is greater in the other |
| Store.CompareTransitive | UTClib.c:342-365 | the `strcmp` order is transitive |
| Store.MakeEntry | UTClib.c:296-307 | a new entry holds at most 25 characters of the key, the whole key when it fits, with count 1 |
| Store.Slot | UTClib.c:332-382 | the walk stops at the first entry whose key is not below the key, passing only smaller keys |
| Store.InsertOrMatch | UTClib.c:314-384 | a key found at the slot has its count raised by 1; otherwise a new entry is inserted at the slot, or INVALID_MEMORY leaves the list as it was |
| Store.InsertKeepsSorted | UTClib.c:332-382 | inserting a key of at most 25 characters into a list in strictly ascending order keeps it in strictly ascending order |
| Store.CountFrame | UTClib.c:336-378 | in any list, sorted or not, a successful call counts the key once more and leaves every other count unchanged; a failed one changes nothing |
| Store.CountAppend | UTClib.c:332-382 | counts of a list split in two add up |
| Store.KeysAfter | UTClib.c:314-384 | after a successful call the keys are the old keys plus the key |
| Store.InsertIntoEmpty | UTClib.c:320-330 | the first key forms a list of one entry with count 1 |
| Store.InsertCountGrows | UTClib.c:336-378 | no call lowers the count of any key |
| Scanner.StripNewline | findUTC.c:194-203 | a read completes the line exactly when it ends in a newline, which is then removed |
| Scanner.Window | findUTC.c:241-242 | the scan window is the next at most 25 characters of the line |
| Scanner.CountAccepted | findUTC.c:245-255 | inserting a timestamp of the grammar keeps the store sorted and holding only keys the matcher accepts unchanged |
| Scanner.ScanText | findUTC.c:236-279 | the text-form scan stops at an offset where too little text is left, with a failed window there, and carries that window's buffer |
| Scanner.ScanStoresOnlyText | findUTC.c:241-257 | a key stored after the text-form scan was stored before or occurs in the line at or after the scan's start |
| Scanner.ScanKeepsKeys | findUTC.c:246-258 | the text-form scan never drops a key the store already holds |
| Scanner.StampWindowMatches | findUTC.c:241-245 | a window that starts at a Zulu or offset timestamp of the grammar is accepted with exactly that timestamp as its buffer |
| Scanner.AcceptedWindowHead | UTClib.c:170-185 | an accepted window has its five separators in place and no digit at position 19 |
| Scanner.NoCloseStamp | findUTC.c:256-257 | a run of four digits cannot start within 20 characters after the start of an accepted window |
| Scanner.NoStampInsideMatch | findUTC.c:256-257 | jumping 20 characters after a match never skips the start of a timestamp |
| Scanner.FindsStampHere | findUTC.c:241-257 | a scan that reaches the start of a timestamp counts it, and it stays in the store |
| Scanner.FindsStamp | findUTC.c:236-279 | every Zulu or offset timestamp at or after the scan's start is in the store afterwards: in a complete line all of them, in a partial line those with at least 25 characters from their start to the end of the buffer |
| Scanner.FindsZulu | findUTC.c:236-279 | the same for a Zulu timestamp |
| Scanner.FindsOffset | findUTC.c:236-279 | the same for an offset timestamp |
| Scanner.StoredKeyOccurs | findUTC.c:236-279 | a key a complete line's scan stores in an empty store is a Zulu or offset timestamp that occurs in the line |
| Scanner.CompleteLineKeys | findUTC.c:236-279 | the keys a complete line's scan stores in an empty store are exactly the Zulu and offset timestamps that occur in the line |
| Scanner.OccurrencesPositive | findUTC.c:236-279 | a key is counted a positive number of times from a position on exactly when it occurs there |
| Scanner.HeadOccurrence | findUTC.c:241-249 | after an accepted window, a timestamp starts at the window exactly when it is the buffer the window leaves |
| Scanner.NoOccurrenceAtMiss | findUTC.c:241-246 | a window that is not accepted starts no timestamp |
| Scanner.NoOccurrenceInside | findUTC.c:256-257 | no timestamp starts in the 20 characters the scan jumps over after a match |
| Scanner.CountAtMatch | findUTC.c:246-257 | counting an accepted window's buffer and jumping 20 characters accounts for every occurrence of a timestamp in those 20 positions |
| Scanner.ScanCounts | findUTC.c:236-279 | in a complete line, the scan raises each Zulu or offset timestamp's count by the number of places it starts at or after the scan's start |
| Scanner.LineCounts | findUTC.c:194-279 | a read that ends a line, after a line that ended, raises each timestamp's count by the number of places it starts in that line, which is the number the program reports |
| Scanner.ScanTextGood | findUTC.c:236-279 | the text-form scan keeps the store sorted and holding only accepted keys |
| Scanner.ScanLine | findUTC.c:236-279 | the loop over a buffer computes exactly the scan `ScanText` describes |
| Scanner.PartialLineStop | findUTC.c:268-287 | on a partial line the carry is exactly the buffer `format_match` left for the last window, which is the rest of the line |
| Scanner.PartialLineCarry | findUTC.c:268-287 | on a partial line the carry is the unscanned rest of the line, or only its first 20 characters when the matcher cut the last window at a `Z` in position 19 |
| Scanner.ScanTextCountGrows | findUTC.c:236-279 | the scan of one buffer never lowers a count |
| Scanner.Step | findUTC.c:175-288 | each pass keeps the read position inside the buffer, and the line is complete exactly when the read ends in a newline |
| Scanner.StepKeepsInv | findUTC.c:175-288 | each pass keeps the store good, and in text form keeps a partial line under 25 characters with the next read right after it |
| Scanner.RunKeepsInv | findUTC.c:172-292 | the whole read loop keeps that invariant |
| Scanner.InitialInv | findUTC.c:171-172 | the loop starts in a state satisfying the invariant |
| Scanner.Run | findUTC.c:173-292 | the state after the last read is consistent, and the last line read is complete exactly when the last read ends in a newline |
| Scanner.RunAppend | findUTC.c:173-292 | the loop is a fold over the reads: running two batches of reads one after the other is running them all |
| Scanner.StepCountGrows | findUTC.c:175-288 | no pass lowers a count |
| Scanner.RunCountGrows | findUTC.c:173-292 | over the whole run, counts only grow |
| Scanner.TableSkipsContinuation | findUTC.c:206-212 | in table form, later reads of a long line change nothing in the store |
| Scanner.TableCountsLine | findUTC.c:213-233 | in table form, the first read of a line counts its matched buffer once and no other key |
| ScanExamples.ScanShort | findUTC.c:259-273 | a buffer shorter than 20 characters is not scanned further and is carried whole |
| ScanExamples.ScanLeadingChar | findUTC.c:259-277 | after one leading character, a timestamp is found only if the line is complete |
| ScanExamples.SkipMisses | findUTC.c:259-277 | windows whose fifth character is not `-` all miss, and the scan moves over them one character at a time |
| ScanExamples.TailScan | findUTC.c:259-273 | in a full first read of running text without `-`, nothing is counted and the scan stops 24 characters before the end |
| ScanExamples.FullFirstRead | findUTC.c:194-287 | such a read carries its last 24 characters into the next read |
| ScanExamples.SeamRescanned | findUTC.c:181-287 | after such a read, the read that ends the line is scanned behind those 24 characters |
| ScanExamples.StampAfterFiller | findUTC.c:239-279 | a timestamp behind running text without `-` in a complete line is counted once |
| ScanExamples.SplitAcrossReads | findUTC.c:181-287 | a Zulu timestamp behind running text without `-` or newline, cut after any of its first 19 characters by the boundary between a full first read of 499 characters and the read that ends the line, is counted once, as the only entry |
| ScanExamples.CutWindow | UTClib.c:187-196 | a rejected Zulu-shaped stamp followed by four characters is rejected and cut back to the stamp |
| ScanExamples.CutScan | findUTC.c:259-273 | a full first read ending in such a window stops on it and carries only the stamp |
| ScanExamples.FirstReadCut | findUTC.c:280-287 | the four characters after the `Z` are not carried into the next read |
| ScanExamples.CutStampAbsent | findUTC.c:241-242 | a valid timestamp does not occur in the rejected stamp followed by the rest of that timestamp after its year |
| ScanExamples.ZuluCutLosesStamp | findUTC.c:280-287 | a valid timestamp whose year ends a full read right behind a rejected Zulu-shaped stamp is never counted, although the two reads together hold it |
| ScanExamples.CarryLostAtEnd | findUTC.c:181-192 | a Zulu timestamp behind one character in a single read without a newline, the last of the file, is never counted |
| ScanExamples.LineEndRescans | findUTC.c:259-277 | the same text ended by a newline finds the timestamp |
| ScanExamples.FillerLineRead | findUTC.c:194-279 | a read that ends a line of running text without `-` followed by a Zulu timestamp counts that timestamp once |
| ScanExamples.TwoLines | findUTC.c:173-292 | two such lines read one after the other, with the same timestamp, give one entry counted twice |
| ScanExamples.RepeatedStamp | findUTC.c:246-257 | a Zulu timestamp written twice in a row is counted twice under one entry |
| Examples.LeapYearCases | UTClib.c:79-89 | 2000 and 2024 have 29 February; 1900 and 2023 do not |
| Examples.ClockBoundaries | UTClib.c:111-126 | 23:59:59 is valid and 24:00:00 is an hour error |
| Examples.ZuluSample | UTClib.c:181-196 | a Zulu timestamp is accepted |
| Examples.OffsetSample | UTClib.c:197-282 | an offset timestamp is accepted |
| Examples.UnknownZoneSample | UTClib.c:181-186 | a 20-character buffer ending in X is a timezone error |
| Examples.FebruaryThirtiethSample | UTClib.c:245-249 | 30 February is reported as a day error |
| Examples.SameKeyTwice | UTClib.c:336-340 | inserting a key twice gives one entry with count 2 |
| Examples.OutOfOrderInserts | UTClib.c:342-378 | keys inserted out of order end up in ascending order |
| Examples.YearsOutOfOrder | UTClib.c:342-378 | timestamps of 2023, 2021 and 2022 end up in year order |

## Left out

- Command-line parsing, `usage`, opening and closing the file, `cleanup`, and the final report printing are outside the model. They are I/O only.
- The `UTCLIB_DEBUG` logging and the debug levels are left out. They have no effect on results.
- The `fgets`/`feof` mechanics and read errors are abstracted: a run is a finite sequence of non-empty reads. A read error ends the loop exactly like end of file.
- Scanner.Run: the reads are any non-empty chunks. The `fgets` guarantee that a read without a newline fills the buffer to 499 characters, unless it is the last, is not imposed. The invariant lemmas therefore cover more runs than the program can see. The whole-run scenarios state the guarantee in their preconditions.
- An empty read, where `strlen(line) - 1` underflows, cannot arise from the chunk abstraction. Chunks are non-empty.
- NUL characters inside a line, which would cut `strlen` short, are not modelled.
- Store.InsertOrMatch: counts are unbounded `nat`. The overflow of the C `int` count after 2^31 − 1 sightings is not modelled.
- Allocation failure inside the scan loop is not modelled. The program exits at once, and the loop always calls `insert_or_match` with `alloc` true. `InsertOrMatch` itself models the failure.
- The `next`/`prev` pointer rewiring is modelled by its effect on list order, not pointer by pointer.
- The `HHMMSS`, `HHMM` and `YYYYMMDD` requests to `format_match` fall to its default branch; this is modelled, but nothing else uses them.
- Scanner.LineCounts: the count is tied to the occurrences only for a line that arrives in one read. For a line split over several reads, the carry can lose a timestamp (ScanExamples.ZuluCutLosesStamp), so no general count for such lines is stated.
- ScanExamples.SplitAcrossReads: shown only for a timestamp behind running text without `-` or newline, in a first read of exactly 499 characters. A seam does not always keep a timestamp whole: ScanExamples.ZuluCutLosesStamp exhibits a cut that loses one.
- ScanExamples.CarryLostAtEnd: shown for one leading character and a Zulu timestamp in a single unterminated read. The general statement for any unterminated last line is not proved.
- ScanExamples.RepeatedStamp: shown for Zulu timestamps only. Two offset timestamps back to back are not covered by an example.
- Locale-dependent `isdigit`/`isspace` behaviour is not modelled; the C locale is assumed.
