/** Subtitle files as they are written, and what the parser reads back from them: a
    well-formed SRT file (blocks of an optional sequence number, a `start --> stop` timing
    line and text lines, separated by blank lines) yields one cue per block, and a WebVTT
    file is its `WEBVTT` header line, line breaks, and the same blocks. */
module SrtFormat {
  import opened Wrappers
  import opened Text
  import opened Cues
  import opened CueParser

  /** A time stamp as written: `HH:MM:SS,mmm`, or `MM:SS,mmm` when `hours` is absent. */
  datatype Stamp = Stamp(hours: Option<nat>, minutes: nat, seconds: nat, millis: nat)

  /** The instant a stamp denotes. */
  function StampSeconds(st: Stamp): real
  {
    Seconds(if st.hours.Some? then st.hours.value else 0, st.minutes, st.seconds, st.millis)
  }

  function Zeros(k: nat): (z: string)
    ensures |z| == k && IsDigits(z)
  {
    seq(k, _ => '0')
  }

  /** `n` in decimal, left-padded with zeros to `width` digits. */
  function Padded(n: nat, width: nat): (s: string)
    ensures |s| >= 1 && IsDigits(s)
  {
    var d := NatToDigits(n);
    (if |d| < width then Zeros(width - |d|) else "") + d
  }

  lemma {:induction false} ZerosValue(k: nat)
    ensures DigitsValue(Zeros(k)) == 0
  {
    if k > 0 {
      assert Zeros(k)[..k - 1] == Zeros(k - 1);
      ZerosValue(k - 1);
    }
  }

  /** Leading zeros do not change the value of a digit string. */
  lemma {:induction false} LeadingZeros(k: nat, s: string)
    requires IsDigits(s)
    ensures IsDigits(Zeros(k) + s) && DigitsValue(Zeros(k) + s) == DigitsValue(s)
  {
    var z := Zeros(k) + s;
    if s == [] {
      assert z == Zeros(k);
      ZerosValue(k);
    } else {
      assert z[..|z| - 1] == Zeros(k) + s[..|s| - 1];
      LeadingZeros(k, s[..|s| - 1]);
    }
  }

  /** A padded number reads back as the number. */
  lemma PaddedValue(n: nat, width: nat)
    ensures DigitsValue(Padded(n, width)) == n
  {
    var d := NatToDigits(n);
    DigitsRoundTrip(n);
    if |d| < width {
      LeadingZeros(width - |d|, d);
    } else {
      assert Padded(n, width) == d;
    }
  }

  /** The text of a stamp. */
  function StampText(st: Stamp): string
  {
    (if st.hours.Some? then Padded(st.hours.value, 2) + ":" else "")
      + Padded(st.minutes, 2) + ":" + Padded(st.seconds, 2) + "," + Padded(st.millis, 3)
  }

  /** The fields of a stamp, in the order they are written. */
  function StampFields(st: Stamp): (f: seq<string>)
    ensures 3 <= |f| <= 4
  {
    (if st.hours.Some? then [Padded(st.hours.value, 2)] else [])
      + [Padded(st.minutes, 2), Padded(st.seconds, 2), Padded(st.millis, 3)]
  }

  lemma DigitsAvoid(s: string, cs: set<char>)
    requires IsDigits(s)
    requires forall c :: c in cs ==> !IsDigit(c)
    ensures Avoids(s, cs)
  {
    forall i | 0 <= i < |s| ensures s[i] !in cs {
      assert IsDigit(s[i]);
    }
  }

  /** `m:s,ms` followed by a separator and `extra` splits into the three fields and the
      fields of `extra`. */
  lemma {:induction false} SplitMinutesThen(m: string, s: string, ms: string, c: char, extra: string)
    requires IsDigits(m) && IsDigits(s) && IsDigits(ms) && c in {':', ',', '.'}
    ensures Split(m + ":" + s + "," + ms + [c] + extra, TimeSeparators)
            == [m, s, ms] + Split(extra, TimeSeparators)
  {
    var cs := {':', ',', '.'};
    DigitsAvoid(m, cs);
    DigitsAvoid(s, cs);
    DigitsAvoid(ms, cs);
    var tail := ms + [c] + extra;
    SplitOnCharCons(ms, c, extra, cs);
    var mid := s + [','] + tail;
    SplitOnCharCons(s, ',', tail, cs);
    SplitOnCharCons(m, ':', mid, cs);
    assert m + ":" + s + "," + ms + [c] + extra == m + [':'] + mid;
  }

  /** `m:s,ms` splits into its three fields. */
  lemma {:induction false} SplitMinutes(m: string, s: string, ms: string)
    requires IsDigits(m) && IsDigits(s) && IsDigits(ms)
    ensures Split(m + ":" + s + "," + ms, TimeSeparators) == [m, s, ms]
  {
    var cs := {':', ',', '.'};
    DigitsAvoid(m, cs);
    DigitsAvoid(s, cs);
    DigitsAvoid(ms, cs);
    SplitOnCharWhole(ms, cs);
    var mid := s + [','] + ms;
    SplitOnCharCons(s, ',', ms, cs);
    SplitOnCharCons(m, ':', mid, cs);
    assert m + ":" + s + "," + ms == m + [':'] + mid;
  }

  /** An hours field in front adds one field in front. */
  lemma {:induction false} SplitHours(h: string, rest: string)
    requires IsDigits(h)
    ensures Split(h + ":" + rest, TimeSeparators) == [h] + Split(rest, TimeSeparators)
  {
    var cs := {':', ',', '.'};
    DigitsAvoid(h, cs);
    SplitOnCharCons(h, ':', rest, cs);
  }

  lemma SplitAllFields(h: string, m: string, s: string, ms: string)
    requires IsDigits(h) && IsDigits(m) && IsDigits(s) && IsDigits(ms)
    ensures Split(h + ":" + (m + ":" + s + "," + ms), TimeSeparators) == [h, m, s, ms]
  {
    SplitMinutes(m, s, ms);
    SplitHours(h, m + ":" + s + "," + ms);
  }

  lemma SplitAllFieldsThen(h: string, m: string, s: string, ms: string, c: char, extra: string)
    requires IsDigits(h) && IsDigits(m) && IsDigits(s) && IsDigits(ms) && c in {':', ',', '.'}
    ensures Split(h + ":" + (m + ":" + s + "," + ms + [c] + extra), TimeSeparators)
            == [h, m, s, ms] + Split(extra, TimeSeparators)
  {
    SplitMinutesThen(m, s, ms, c, extra);
    SplitHours(h, m + ":" + s + "," + ms + [c] + extra);
  }

  lemma StampSplitWithHours(st: Stamp)
    requires st.hours.Some?
    ensures Split(StampText(st), TimeSeparators) == StampFields(st)
  {
    var h, m, s, ms := Padded(st.hours.value, 2), Padded(st.minutes, 2), Padded(st.seconds, 2), Padded(st.millis, 3);
    SplitAllFields(h, m, s, ms);
    assert StampText(st) == h + ":" + (m + ":" + s + "," + ms);
  }

  lemma StampSplitWithoutHours(st: Stamp)
    requires st.hours.None?
    ensures Split(StampText(st), TimeSeparators) == StampFields(st)
  {
    var m, s, ms := Padded(st.minutes, 2), Padded(st.seconds, 2), Padded(st.millis, 3);
    SplitMinutes(m, s, ms);
    assert StampText(st) == m + ":" + s + "," + ms;
  }

  /** A stamp with hours, regrouped after its hours field. */
  lemma StampTextGrouped(st: Stamp)
    requires st.hours.Some?
    ensures var body := Padded(st.minutes, 2) + ":" + Padded(st.seconds, 2) + "," + Padded(st.millis, 3);
            StampText(st) == Padded(st.hours.value, 2) + ":" + body
  {
  }

  /** A stamp with hours followed by `c` and `extra`, regrouped after its hours field. */
  lemma StampTextThen(st: Stamp, c: char, extra: string)
    requires st.hours.Some?
    ensures var body := Padded(st.minutes, 2) + ":" + Padded(st.seconds, 2) + "," + Padded(st.millis, 3);
            StampText(st) + [c] + extra == Padded(st.hours.value, 2) + ":" + (body + [c] + extra)
  {
  }

  /** A stamp with hours, a further separator and `extra` splits into the stamp's four
      fields followed by the fields of `extra`. */
  lemma StampSplitThen(st: Stamp, c: char, extra: string)
    requires st.hours.Some? && c in {':', ',', '.'}
    ensures Split(StampText(st) + [c] + extra, TimeSeparators) == StampFields(st) + Split(extra, TimeSeparators)
  {
    var h, m, s, ms := Padded(st.hours.value, 2), Padded(st.minutes, 2), Padded(st.seconds, 2), Padded(st.millis, 3);
    StampTextThen(st, c, extra);
    SplitAllFieldsThen(h, m, s, ms, c, extra);
    assert StampFields(st) == [h, m, s, ms];
  }

  /** `parse_time` reads a written stamp back as the instant it denotes, with or
      without the hours field. */
  lemma ParseStamp(st: Stamp)
    ensures ParseTime(StampText(st)) == Success(StampSeconds(st))
  {
    if st.hours.Some? {
      StampSplitWithHours(st);
    } else {
      StampSplitWithoutHours(st);
    }
    PaddedValue(st.minutes, 2);
    PaddedValue(st.seconds, 2);
    PaddedValue(st.millis, 3);
    if st.hours.Some? {
      PaddedValue(st.hours.value, 2);
    }
  }

  /** With four fields present, whatever follows a further separator is ignored. */
  lemma ParseStampIgnoresExtra(st: Stamp, c: char, extra: string)
    requires st.hours.Some? && c in {':', ',', '.'}
    ensures ParseTime(StampText(st) + [c] + extra) == Success(StampSeconds(st))
  {
    StampSplitThen(st, c, extra);
    PaddedValue(st.hours.value, 2);
    PaddedValue(st.minutes, 2);
    PaddedValue(st.seconds, 2);
    PaddedValue(st.millis, 3);
  }

  /** A stamp with only two fields (`MM:SS`) makes `parse_time` throw. */
  lemma ParseTwoFieldsThrows(m: nat, s: nat)
    ensures ParseTime(Padded(m, 2) + ":" + Padded(s, 2)).Failure?
    ensures ParseTime(Padded(m, 2) + ":" + Padded(s, 2)).error.ParsingError?
  {
    var cs := {':', ',', '.'};
    var a, b := Padded(m, 2), Padded(s, 2);
    DigitsAvoid(a, cs);
    DigitsAvoid(b, cs);
    SplitOnCharWhole(b, cs);
    SplitOnCharCons(a, ':', b, cs);
    assert a + ":" + b == a + [':'] + b;
  }

  /** One subtitle block as written: an optional sequence number, the timing line
      `start --> stop`, and the text lines. */
  datatype Entry = Entry(number: Option<nat>, start: Stamp, stop: Stamp, lines: seq<string>)

  /** A text line: not empty and without line-break characters. */
  predicate IsTextLine(l: string)
  {
    |l| > 0 && Avoids(l, {'\r', '\n'})
  }

  predicate WellFormed(e: Entry)
  {
    forall j :: 0 <= j < |e.lines| ==> IsTextLine(e.lines[j])
  }

  predicate AllWellFormed(entries: seq<Entry>)
  {
    forall i :: 0 <= i < |entries| ==> WellFormed(entries[i])
  }

  function TimingText(e: Entry): string
  {
    StampText(e.start) + " " + Arrow + " " + StampText(e.stop)
  }

  function BlockLines(e: Entry): seq<string>
  {
    (if e.number.Some? then [NatToDigits(e.number.value)] else []) + [TimingText(e)] + e.lines
  }

  function BlockText(e: Entry): string
  {
    Join(BlockLines(e), "\n")
  }

  function Blocks(entries: seq<Entry>): (b: seq<string>)
    ensures |b| == |entries|
  {
    seq(|entries|, i requires 0 <= i < |entries| => BlockText(entries[i]))
  }

  /** A whole SRT file: the blocks separated by blank lines. */
  function FormatSrt(entries: seq<Entry>): string
  {
    Join(Blocks(entries), "\n\n")
  }

  /** The cue an entry stands for: its times, and its lines joined with `<br>`. */
  function EntryCue(e: Entry): Cue
  {
    Cue(StampSeconds(e.start), StampSeconds(e.stop), Join(e.lines, Br))
  }

  function EntryCues(entries: seq<Entry>): (c: seq<Cue>)
    ensures |c| == |entries|
  {
    seq(|entries|, i requires 0 <= i < |entries| => EntryCue(entries[i]))
  }

  lemma {:induction false} ContainsInfix(x: string, sub: string, y: string)
    ensures Contains(x + sub + y, sub)
    decreases |x|
  {
    var s := x + sub + y;
    if x == [] {
      assert s[..|sub|] == sub;
    } else {
      assert s[1..] == x[1..] + sub + y;
      ContainsInfix(x[1..], sub, y);
    }
  }

  lemma {:induction false} DigitsLackArrow(s: string)
    requires IsDigits(s)
    ensures !Contains(s, Arrow)
    decreases |s|
  {
    if |s| >= 3 {
      assert IsDigit(s[0]);
      assert s[..3] != Arrow by {
        assert Arrow[0] == '-';
      }
      DigitsLackArrow(s[1..]);
    }
  }

  lemma AvoidsConcat(a: string, b: string, cs: set<char>)
    requires Avoids(a, cs) && Avoids(b, cs)
    ensures Avoids(a + b, cs)
  {
    forall i | 0 <= i < |a + b| ensures (a + b)[i] !in cs {
      if i >= |a| {
        assert (a + b)[i] == b[i - |a|];
      }
    }
  }

  /** A stamp avoids every character of `cs` that is not a digit, `:` or `,`. */
  lemma StampAvoids(st: Stamp, cs: set<char>)
    requires forall c :: c in cs ==> !IsDigit(c) && c != ':' && c != ','
    ensures Avoids(StampText(st), cs)
  {
    var m, s, ms := Padded(st.minutes, 2), Padded(st.seconds, 2), Padded(st.millis, 3);
    DigitsAvoid(m, cs);
    DigitsAvoid(s, cs);
    DigitsAvoid(ms, cs);
    AvoidsConcat(m, ":", cs);
    AvoidsConcat(m + ":", s, cs);
    AvoidsConcat(m + ":" + s, ",", cs);
    AvoidsConcat(m + ":" + s + ",", ms, cs);
    if st.hours.Some? {
      var h := Padded(st.hours.value, 2);
      DigitsAvoid(h, cs);
      AvoidsConcat(h, ":", cs);
      AvoidsConcat(h + ":", m + ":" + s + "," + ms, cs);
      StampTextGrouped(st);
    } else {
      assert StampText(st) == m + ":" + s + "," + ms;
    }
  }

  lemma StampStartsWithDigit(st: Stamp)
    ensures |StampText(st)| > 0 && IsDigit(StampText(st)[0])
  {
    if st.hours.Some? {
      assert StampText(st)[0] == Padded(st.hours.value, 2)[0];
    } else {
      assert StampText(st)[0] == Padded(st.minutes, 2)[0];
    }
  }

  /** The timing line splits on `[ \t]` into the start stamp, the arrow and the stop stamp. */
  lemma TimingTokens(e: Entry)
    ensures Split(TimingText(e), TokenSeparators) == [StampText(e.start), Arrow, StampText(e.stop)]
  {
    var cs := {' ', '\t'};
    var a, b := StampText(e.start), StampText(e.stop);
    StampAvoids(e.start, cs);
    StampAvoids(e.stop, cs);
    assert Avoids(Arrow, cs);
    SplitOnCharWhole(b, cs);
    SplitOnCharCons(Arrow, ' ', b, cs);
    SplitOnCharCons(a, ' ', Arrow + " " + b, cs);
    assert TimingText(e) == a + " " + (Arrow + " " + b);
  }

  lemma TimingAvoidsBreaks(e: Entry)
    ensures IsTextLine(TimingText(e))
  {
    var cs := {'\r', '\n'};
    var a, b := StampText(e.start), StampText(e.stop);
    StampAvoids(e.start, cs);
    StampAvoids(e.stop, cs);
    assert Avoids(" " + Arrow + " ", cs);
    AvoidsConcat(a, " " + Arrow + " ", cs);
    AvoidsConcat(a + (" " + Arrow + " "), b, cs);
    assert TimingText(e) == a + (" " + Arrow + " ") + b;
  }

  lemma BlockLinesAreText(e: Entry)
    requires WellFormed(e)
    ensures forall j :: 0 <= j < |BlockLines(e)| ==> IsTextLine(BlockLines(e)[j])
  {
    TimingAvoidsBreaks(e);
    if e.number.Some? {
      DigitsAvoid(NatToDigits(e.number.value), {'\r', '\n'});
    }
  }

  /** The line that holds the timing is found where it was written, and the lines after
      it are the text lines. */
  lemma TimingLineFound(e: Entry)
    ensures |BlockLines(e)| >= 1 && HasTiming(BlockLines(e))
    ensures BlockLines(e)[TimingLine(BlockLines(e))] == TimingText(e)
    ensures BlockLines(e)[TimingLine(BlockLines(e)) + 1..] == e.lines
  {
    var lines := BlockLines(e);
    var a, b := StampText(e.start), StampText(e.stop);
    ContainsInfix(a + " ", Arrow, " " + b);
    assert TimingText(e) == (a + " ") + Arrow + (" " + b);
    if e.number.Some? {
      DigitsLackArrow(NatToDigits(e.number.value));
      assert lines[0] == NatToDigits(e.number.value);
      assert lines[2..] == e.lines;
    } else {
      assert lines[0] == TimingText(e);
      assert lines[1..] == e.lines;
    }
  }

  /** A written block becomes exactly the entry's cue, pushed after the cues before it. */
  lemma EntryBlock(cues: seq<Cue>, e: Entry)
    requires WellFormed(e)
    ensures ProcessBlock(cues, BlockText(e)) == Success(cues + [EntryCue(e)])
  {
    var lines := BlockLines(e);
    BlockLinesAreText(e);
    SplitJoin(lines, LineBreak, "\n");
    JoinPrefix(lines, "\n");
    assert BlockText(e)[0] == lines[0][0];
    if e.number.Some? {
      assert IsDigit(lines[0][0]);
    } else {
      StampStartsWithDigit(e.start);
      assert lines[0][0] == StampText(e.start)[0];
    }
    assert !IsBlank(BlockText(e));
    TimingLineFound(e);
    TimingTokens(e);
    ParseStamp(e.start);
    ParseStamp(e.stop);
  }

  lemma CollectStep(cues: seq<Cue>, blocks: seq<string>, next: seq<Cue>)
    requires blocks != [] && ProcessBlock(cues, blocks[0]) == Success(next)
    ensures CollectCues(cues, blocks) == CollectCues(next, blocks[1..])
  {
  }

  lemma BlocksCons(entries: seq<Entry>)
    requires entries != []
    ensures Blocks(entries)[0] == BlockText(entries[0])
    ensures Blocks(entries)[1..] == Blocks(entries[1..])
    ensures EntryCues(entries) == [EntryCue(entries[0])] + EntryCues(entries[1..])
  {
  }

  /** The parser's loop turns the written blocks into the entries' cues, in order. */
  lemma {:induction false} CollectEntries(cues: seq<Cue>, entries: seq<Entry>)
    requires AllWellFormed(entries)
    ensures CollectCues(cues, Blocks(entries)) == Success(cues + EntryCues(entries))
    decreases |entries|
  {
    if entries == [] {
      assert Blocks(entries) == [];
      assert cues + EntryCues(entries) == cues;
    } else {
      var rest := entries[1..];
      var next := cues + [EntryCue(entries[0])];
      CollectFirstEntry(cues, entries);
      CollectEntries(next, rest);
      BlocksCons(entries);
      assert next + EntryCues(rest) == cues + ([EntryCue(entries[0])] + EntryCues(rest));
    }
  }

  /** The first written block adds its cue; the other entries stay well formed. */
  lemma CollectFirstEntry(cues: seq<Cue>, entries: seq<Entry>)
    requires AllWellFormed(entries) && entries != []
    ensures CollectCues(cues, Blocks(entries)) == CollectCues(cues + [EntryCue(entries[0])], Blocks(entries[1..]))
    ensures AllWellFormed(entries[1..])
  {
    var rest := entries[1..];
    BlocksCons(entries);
    assert WellFormed(entries[0]);
    EntryBlock(cues, entries[0]);
    CollectStep(cues, Blocks(entries), cues + [EntryCue(entries[0])]);
    forall i | 0 <= i < |rest| ensures WellFormed(rest[i]) {
      assert rest[i] == entries[i + 1];
    }
  }

  /** The loop and the sort on written blocks yield the entries' cues, sorted. */
  lemma CuesOfEntryBlocks(entries: seq<Entry>)
    requires AllWellFormed(entries)
    ensures CuesOfBlocks(Blocks(entries)) == Success(SortByStart(EntryCues(entries)))
  {
    CollectEntries([], entries);
    assert [] + EntryCues(entries) == EntryCues(entries);
  }

  lemma BlocksSingleSpaced(entries: seq<Entry>)
    requires AllWellFormed(entries)
    ensures forall j :: 0 <= j < |Blocks(entries)| ==> SingleSpaced(Blocks(entries)[j])
  {
    forall j | 0 <= j < |entries| ensures SingleSpaced(Blocks(entries)[j]) {
      BlockLinesAreText(entries[j]);
      JoinLinesSingleSpaced(BlockLines(entries[j]));
    }
  }

  /** Round trip: `parse_srt` of a written SRT file yields the entries' cues, stably
      sorted by start (the empty file yields no cue). */
  lemma SrtRoundTrip(entries: seq<Entry>)
    requires AllWellFormed(entries)
    ensures SrtCues(FormatSrt(entries)) == Success(SortByStart(EntryCues(entries)))
  {
    if entries == [] {
      assert FormatSrt(entries) == "";
      assert Split("", BlankLineRun) == [""];
      assert IsBlank("");
      assert CollectCues([], [""]) == Success([]) by {
        assert [""][1..] == [];
      }
    } else {
      BlocksSingleSpaced(entries);
      SplitJoinBlocks(Blocks(entries));
      CuesOfEntryBlocks(entries);
    }
  }

  /** Entries written in start order come back exactly as written. */
  lemma SrtRoundTripInOrder(entries: seq<Entry>)
    requires AllWellFormed(entries)
    requires SortedByStart(EntryCues(entries))
    ensures SrtCues(FormatSrt(entries)) == Success(EntryCues(entries))
  {
    SrtRoundTrip(entries);
    SortByStartOfSorted(EntryCues(entries));
  }

  function Newlines(k: nat): (s: string)
    ensures |s| == k
  {
    seq(k, _ => '\n')
  }

  /** A WebVTT file: `WEBVTT`, the rest of the header line, `gap` line feeds, the blocks. */
  function FormatVtt(title: string, gap: nat, entries: seq<Entry>): string
  {
    "WEBVTT" + title + Newlines(gap) + FormatSrt(entries)
  }

  lemma {:induction false} BreakRunOfNewlines(s: string, i: nat, k: nat)
    requires i + k <= |s|
    requires forall j :: i <= j < i + k ==> s[j] == '\n'
    requires i + k == |s| || (s[i + k] != '\r' && s[i + k] != '\n')
    ensures BreakRun(s, i) == (k, k)
    decreases k
  {
    if k > 0 {
      BreakRunOfNewlines(s, i + 1, k - 1);
    }
  }

  lemma FormatSrtStart(entries: seq<Entry>)
    requires entries != []
    ensures |FormatSrt(entries)| > 0 && IsDigit(FormatSrt(entries)[0])
  {
    var e := entries[0];
    var lines := BlockLines(e);
    JoinPrefix(Blocks(entries), "\n\n");
    JoinPrefix(lines, "\n");
    assert Blocks(entries)[0] == BlockText(e);
    if e.number.Some? {
      assert lines[0] == NatToDigits(e.number.value);
    } else {
      StampStartsWithDigit(e.start);
      assert lines[0] == TimingText(e);
    }
  }

  /** `parse_vtt` cuts the header line and the line feeds after it, and reads the
      blocks as SRT. */
  lemma VttRoundTrip(title: string, gap: nat, entries: seq<Entry>)
    requires Avoids(title, {'\r', '\n'}) && gap >= 1
    requires AllWellFormed(entries)
    ensures ParseVtt(FormatVtt(title, gap, entries)) == Success(SortByStart(EntryCues(entries)))
  {
    var raw := FormatVtt(title, gap, entries);
    var k := 6 + |title|;
    assert raw[..6] == "WEBVTT";
    forall j | 6 <= j < k ensures raw[j] != '\r' && raw[j] != '\n' {
      assert raw[j] == title[j - 6];
    }
    assert raw[k] == '\n';
    LineEndAt(raw, 6, k);
    if entries != [] {
      FormatSrtStart(entries);
      assert raw[k + gap] == FormatSrt(entries)[0];
    }
    BreakRunOfNewlines(raw, k, gap);
    assert raw[k + gap..] == FormatSrt(entries);
    SrtRoundTrip(entries);
  }

  /** A file whose first block is a text line without timing makes `parse_srt` read the
      last element of an empty cue list. */
  lemma LeadingContinuationThrows(line: string, rest: seq<Entry>)
    requires IsTextLine(line) && !IsBlank(line) && !Contains(line, Arrow)
    requires AllWellFormed(rest)
    ensures SrtCues(Join([line] + Blocks(rest), "\n\n")) == Failure(TypeError)
  {
    var blocks := [line] + Blocks(rest);
    var raw := Join(blocks, "\n\n");
    SplitOnCharWhole(line, {'\r', '\n'});
    assert Split(line, LineBreak) == [line] by {
      forall i | 0 <= i < |line| ensures MatchAt(LineBreak, line, i) == 0 {
        NoMatchAtNonStarter(LineBreak, line, i);
      }
      SplitWhole(line, LineBreak);
    }
    assert ProcessBlock([], line) == Failure(TypeError);
    if rest == [] {
      assert raw == line;
      forall i | 0 <= i < |line| ensures MatchAt(BlankLineRun, line, i) == 0 {
        NoMatchAtNonStarter(BlankLineRun, line, i);
      }
      SplitWhole(line, BlankLineRun);
    } else {
      BlocksSingleSpaced(rest);
      assert SingleSpaced(line);
      forall j | 0 <= j < |blocks| ensures SingleSpaced(blocks[j]) {
        if j > 0 {
          assert blocks[j] == Blocks(rest)[j - 1];
        }
      }
      SplitJoinBlocks(blocks);
    }
    assert Split(raw, BlankLineRun)[0] == line;
  }

  lemma ExampleFields()
    ensures NatToDigits(1) == "1" && Padded(0, 2) == "00" && Padded(1, 2) == "01"
    ensures Padded(2, 2) == "02" && Padded(0, 3) == "000" && Padded(500, 3) == "500"
  {
    assert NatToDigits(0) == "0";
    assert Zeros(1) == "0" && Zeros(2) == "00";
    assert NatToDigits(5) == "5";
    assert NatToDigits(50) == "50";
    assert NatToDigits(500) == "500";
  }

  /** The one-cue example file, piece by piece. */
  const ExampleStart: string := "00:00:01,000"
  const ExampleStop: string := "00:00:02,500"
  const ExampleTimingLine: string := ExampleStart + " " + Arrow + " " + ExampleStop
  const ExampleFile: string := "1" + "\n" + ExampleTimingLine + "\n" + "Hello"

  lemma ExampleStamps()
    ensures StampText(Stamp(Some(0), 0, 1, 0)) == ExampleStart
    ensures StampText(Stamp(Some(0), 0, 2, 500)) == ExampleStop
  {
    ExampleFields();
  }

  lemma ExampleTiming(e: Entry)
    requires e.start == Stamp(Some(0), 0, 1, 0) && e.stop == Stamp(Some(0), 0, 2, 500)
    ensures TimingText(e) == ExampleTimingLine
  {
    ExampleStamps();
  }

  lemma JoinThree(a: string, b: string, c: string, d: string)
    ensures Join([a, b, c], d) == a + d + b + d + c
  {
    assert [a, b, c][1..] == [b, c];
    assert [b, c][1..] == [c];
    assert Join([b, c], d) == b + d + c;
    assert a + d + (b + d + c) == a + d + b + d + c;
  }

  /** The entry of the one-cue example. */
  function ExampleEntry(): Entry
  {
    Entry(Some(1), Stamp(Some(0), 0, 1, 0), Stamp(Some(0), 0, 2, 500), ["Hello"])
  }

  lemma ExampleLines()
    ensures BlockLines(ExampleEntry()) == ["1", ExampleTimingLine, "Hello"]
  {
    var e := ExampleEntry();
    ExampleFields();
    ExampleTiming(e);
    assert BlockLines(e) == [NatToDigits(1)] + [TimingText(e)] + ["Hello"];
  }

  lemma ExampleFormat()
    ensures FormatSrt([ExampleEntry()]) == ExampleFile
  {
    var e := ExampleEntry();
    ExampleLines();
    JoinThree("1", ExampleTimingLine, "Hello", "\n");
    assert Blocks([e]) == [BlockText(e)];
  }

  lemma ExampleWellFormed()
    ensures AllWellFormed([ExampleEntry()])
  {
    assert IsTextLine("Hello");
  }

  lemma ExampleCues()
    ensures EntryCues([ExampleEntry()]) == [Cue(1.0, 2.5, "Hello")]
  {
    assert EntryCue(ExampleEntry()) == Cue(1.0, 2.5, "Hello");
  }

  /** The example of a one-cue SRT file. */
  lemma OneCueExample()
    ensures SrtCues(ExampleFile) == Success([Cue(1.0, 2.5, "Hello")])
  {
    ExampleWellFormed();
    ExampleFormat();
    ExampleCues();
    SrtRoundTrip([ExampleEntry()]);
  }
}
