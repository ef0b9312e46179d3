/** The cue parser of the older copy, subtitles.js. `parse_time` and the loop body of
    `parse_srt` are those of the current copy; the loop starts at block 1 (to step over a
    WebVTT header block), and `parse_vtt` cuts `prefix.length` characters, which is 1, the
    length of the match array. */
module LegacyParser {
  import opened Wrappers
  import opened Text
  import opened Cues
  import opened CueParser
  import opened SrtFormat

  /** What the older `parse_srt` returns for `raw` (or throws): block 0 is never read. */
  function LegacySrtCues(raw: string): (r: Result<seq<Cue>>)
    ensures r.Success? ==> SortedByStart(r.value)
  {
    CuesOfBlocks(Split(raw, BlankLineRun)[1..])
  }

  /** `parse_srt` of subtitles.js: the same loop, from block 1 on. */
  method LegacyParseSrt(raw: string) returns (r: Result<seq<Cue>>)
    ensures r == LegacySrtCues(raw)
  {
    var blocks := Split(raw, BlankLineRun);
    r := ParseSrtBlocks(blocks, 1);
  }

  /** `parse_vtt` of subtitles.js: one character is cut once the header matches. */
  function LegacyParseVtt(raw: string): (r: Result<seq<Cue>>)
    ensures VttHeaderLength(raw).None? ==> r == Failure(TypeError)
    ensures VttHeaderLength(raw).Some? ==> r == LegacySrtCues(raw[1..])
  {
    match VttHeaderLength(raw)
    case None => Failure(TypeError)
    case Some(_) => LegacySrtCues(raw[1..])
  }

  /** `parse_subtitles` of subtitles.js: the format is chosen by the file name's suffix. */
  function LegacyParseSubtitles(raw: string, hint: string): (r: Result<seq<Cue>>)
    ensures HasSuffix(hint, "srt") ==> r == LegacySrtCues(raw)
    ensures !HasSuffix(hint, "srt") && HasSuffix(hint, "vtt") ==> r == LegacyParseVtt(raw)
    ensures !HasSuffix(hint, "srt") && !HasSuffix(hint, "vtt") ==>
              r == Failure(ParsingError("unsupported format"))
    ensures r.Success? ==> SortedByStart(r.value)
  {
    if HasSuffix(hint, "srt") then LegacySrtCues(raw)
    else if HasSuffix(hint, "vtt") then LegacyParseVtt(raw)
    else Failure(ParsingError("unsupported format"))
  }

  /** The older parser reads a written SRT file without its first entry. */
  lemma LegacySrtDropsFirstEntry(entries: seq<Entry>)
    requires AllWellFormed(entries) && |entries| >= 1
    ensures LegacySrtCues(FormatSrt(entries)) == Success(SortByStart(EntryCues(entries[1..])))
  {
    var rest := entries[1..];
    BlocksSingleSpaced(entries);
    SplitJoinBlocks(Blocks(entries));
    assert Split(FormatSrt(entries), BlankLineRun)[1..] == Blocks(rest) by {
      BlocksCons(entries);
    }
    assert AllWellFormed(rest) by {
      forall i | 0 <= i < |rest| ensures WellFormed(rest[i]) {
        assert rest[i] == entries[i + 1];
      }
    }
    CuesOfEntryBlocks(rest);
  }

  /** The one-cue example: the current parser yields its cue, the older one nothing. */
  lemma LegacyOneCueExample()
    ensures SrtCues(ExampleFile) == Success([Cue(1.0, 2.5, "Hello")])
    ensures LegacySrtCues(ExampleFile) == Success([])
  {
    OneCueExample();
    var e := ExampleEntry();
    ExampleWellFormed();
    ExampleFormat();
    LegacySrtDropsFirstEntry([e]);
    assert EntryCues([e][1..]) == [];
  }

  /** A line without line breaks, at least two line feeds, and text that does not begin
      with a line break: the line is the first block and the text holds the others. */
  lemma {:induction false} SplitAfterHeader(header: string, gap: nat, rest: string)
    requires Avoids(header, {'\r', '\n'}) && gap >= 2
    requires rest == [] || (rest[0] != '\r' && rest[0] != '\n')
    ensures Split(header + Newlines(gap) + rest, BlankLineRun) == [header] + Split(rest, BlankLineRun)
  {
    var s := header + Newlines(gap) + rest;
    var k := |header|;
    forall i | 0 <= i < k ensures MatchAt(BlankLineRun, s, i) == 0 {
      assert s[i] == header[i];
      NoMatchAtNonStarter(BlankLineRun, s, i);
    }
    if rest != [] {
      assert s[k + gap] == rest[0];
    }
    BreakRunOfNewlines(s, k, gap);
    assert MatchAt(BlankLineRun, s, k) == gap;
    SplitFirst(s, BlankLineRun, k);
    assert s[..k] == header;
    assert s[k + gap..] == rest;
  }

  /** Once its first character is cut, a WebVTT file with at least two line feeds after
      the header line has the rest of that line as block 0, and the blocks of the entries
      after it. */
  lemma LegacyVttBlocks(title: string, gap: nat, entries: seq<Entry>)
    requires Avoids(title, {'\r', '\n'}) && gap >= 2
    requires AllWellFormed(entries)
    ensures LegacySrtCues(FormatVtt(title, gap, entries)[1..]) == SrtCues(FormatSrt(entries))
  {
    var raw := FormatVtt(title, gap, entries);
    var header := "EBVTT" + title;
    assert Avoids(header, {'\r', '\n'}) by {
      forall i | 0 <= i < |header| ensures header[i] !in {'\r', '\n'} {
        if i >= 5 {
          assert header[i] == title[i - 5];
        }
      }
    }
    assert raw[1..] == header + Newlines(gap) + FormatSrt(entries);
    if entries != [] {
      FormatSrtStart(entries);
    }
    SplitAfterHeader(header, gap, FormatSrt(entries));
    assert Split(raw[1..], BlankLineRun)[1..] == Split(FormatSrt(entries), BlankLineRun);
  }

  /** On a WebVTT file whose header line is followed by at least two line feeds, both
      copies read the same cues: the block the older parser steps over is the rest of the
      header line. */
  lemma LegacyVttAgrees(title: string, gap: nat, entries: seq<Entry>)
    requires Avoids(title, {'\r', '\n'}) && gap >= 2
    requires AllWellFormed(entries)
    ensures LegacyParseVtt(FormatVtt(title, gap, entries)) == ParseVtt(FormatVtt(title, gap, entries))
    ensures LegacyParseVtt(FormatVtt(title, gap, entries)) == Success(SortByStart(EntryCues(entries)))
  {
    var raw := FormatVtt(title, gap, entries);
    VttRoundTrip(title, gap, entries);
    assert VttHeaderLength(raw).Some?;
    LegacyVttBlocks(title, gap, entries);
    SrtRoundTrip(entries);
  }
}
