/** The cue parser of static/subtitles.js: `parse_time`, `parse_srt`, `parse_vtt` and
    `parse_subtitles`. SRT text (and WebVTT text once its header is removed) is cut into
    blocks at blank lines, each block into lines; a block with a `-->` timing line becomes
    one cue, a block without one is glued onto the previous cue, and the cues are finally
    stably sorted by start time. */
module CueParser {
  import opened Wrappers
  import opened Text
  import opened Cues

  /** `/[:,\.]/`, the separators inside a time stamp. */
  const TimeSeparators: Separator := AnyOf({':', ',', '.'})
  /** `/[ \t]/`, the separators between the tokens of a timing line. */
  const TokenSeparators: Separator := AnyOf({' ', '\t'})
  const Arrow: string := "-->"
  /** The markup that joins the lines of a cue's text. */
  const Br: string := "<br>"

  /** `hours*3600 + minutes*60 + seconds + milliseconds/1000`, exactly. */
  function Seconds(h: nat, m: nat, s: nat, ms: nat): real
  {
    (h * 3600 + m * 60 + s) as real + ms as real / 1000.0
  }

  /** `parse_time`: a stamp `[HH:]MM:SS,mmm` (any of `:`, `,`, `.` between fields) in
      seconds. Fewer than three fields throw; with four or more, the first four are read. */
  function ParseTime(token: string): (r: Result<real>)
    ensures r.Failure? && r.error.ParsingError? <==> |Split(token, TimeSeparators)| < 3
    ensures r.Success? ==> r.value >= 0.0
    ensures r.Success? || r.error.ParsingError? || r.error.NotANumber?
  {
    var parts := Split(token, TimeSeparators);
    if |parts| < 3 then
      Failure(ParsingError("invalid timing \"" + token + "\""))
    else if |parts| < 4 then
      if IsDigits(parts[0]) && IsDigits(parts[1]) && IsDigits(parts[2]) then
        Success(Seconds(0, DigitsValue(parts[0]), DigitsValue(parts[1]), DigitsValue(parts[2])))
      else Failure(NotANumber)
    else
      if IsDigits(parts[0]) && IsDigits(parts[1]) && IsDigits(parts[2]) && IsDigits(parts[3]) then
        Success(Seconds(DigitsValue(parts[0]), DigitsValue(parts[1]), DigitsValue(parts[2]), DigitsValue(parts[3])))
      else Failure(NotANumber)
  }

  /** Index of the line expected to hold the timing: line 0 if it has `-->`, else line 1. */
  function TimingLine(lines: seq<string>): nat
    requires |lines| >= 1
  {
    if Contains(lines[0], Arrow) then 0 else 1
  }

  /** The expected timing line exists and holds `-->`. */
  predicate HasTiming(lines: seq<string>)
    requires |lines| >= 1
  {
    TimingLine(lines) < |lines| && Contains(lines[TimingLine(lines)], Arrow)
  }

  /** The cue list with `more` appended to the text of its last cue. */
  function AppendToLast(cues: seq<Cue>, more: string): (r: seq<Cue>)
    requires |cues| > 0
    ensures |r| == |cues| && r[..|r| - 1] == cues[..|cues| - 1]
    ensures r[|r| - 1] == cues[|cues| - 1].(text := cues[|cues| - 1].text + more)
  {
    cues[..|cues| - 1] + [cues[|cues| - 1].(text := cues[|cues| - 1].text + more)]
  }

  /** One iteration of `parse_srt`'s loop on `block`, given the cues collected so far. */
  function ProcessBlock(cues: seq<Cue>, block: string): Result<seq<Cue>>
  {
    if IsBlank(block) then Success(cues)
    else
      var lines := Split(block, LineBreak);
      if !HasTiming(lines) then
        // a continuation of the previous cue; `cues[-1]` is undefined when there is none
        if |cues| == 0 then Failure(TypeError)
        else Success(AppendToLast(cues, Br + Join(lines, Br)))
      else
        var t := TimingLine(lines);
        var parts := Split(lines[t], TokenSeparators);
        var start := ParseTime(parts[0]);
        if start.Failure? && start.error.ParsingError? then Failure(start.error)
        else if |parts| < 2 || parts[1] != Arrow then Success(cues)  // separator wrong: dropped
        else if start.Failure? then Failure(start.error)
        else if |parts| < 3 then Failure(TypeError)  // `parse_time(undefined)`
        else
          var stop :- ParseTime(parts[2]);
          Success(cues + [Cue(start.value, stop, Join(lines[t + 1..], Br))])
  }

  /** The loop of `parse_srt` over `blocks`, starting from the cues in `cues`. */
  function CollectCues(cues: seq<Cue>, blocks: seq<string>): Result<seq<Cue>>
    decreases |blocks|
  {
    if blocks == [] then Success(cues)
    else
      var next :- ProcessBlock(cues, blocks[0]);
      CollectCues(next, blocks[1..])
  }

  /** The cues of `blocks`, stably sorted by start. */
  function CuesOfBlocks(blocks: seq<string>): (r: Result<seq<Cue>>)
    ensures r.Success? <==> CollectCues([], blocks).Success?
    ensures r.Success? ==> SortedByStart(r.value)
    ensures r.Success? ==> multiset(r.value) == multiset(CollectCues([], blocks).value)
    ensures r.Failure? ==> r.error == CollectCues([], blocks).error
  {
    var cues :- CollectCues([], blocks);
    SortByStartSorted(cues);
    SortByStartPermutes(cues);
    Success(SortByStart(cues))
  }

  /** What `parse_srt` returns for `raw` (or throws). */
  function SrtCues(raw: string): (r: Result<seq<Cue>>)
    ensures r.Success? ==> SortedByStart(r.value)
  {
    CuesOfBlocks(Split(raw, BlankLineRun))
  }

  /** `parse_srt`'s loop, run over the blocks from index `first` on: it pushes new cues,
      extends the last cue's text in place, and sorts once all blocks are read. */
  method ParseSrtBlocks(blocks: seq<string>, first: nat) returns (r: Result<seq<Cue>>)
    requires first <= |blocks|
    ensures r == CuesOfBlocks(blocks[first..])
  {
    var cues: seq<Cue> := [];
    var i := first;
    while i < |blocks|
      invariant first <= i <= |blocks|
      invariant CollectCues(cues, blocks[i..]) == CollectCues([], blocks[first..])
    {
      assert blocks[i..][0] == blocks[i] && blocks[i..][1..] == blocks[i + 1..];
      var block := blocks[i];
      if IsBlank(block) {
        i := i + 1;
        continue;
      }
      var lines := Split(block, LineBreak);
      var timingLine := if Contains(lines[0], Arrow) then 0 else 1;
      if timingLine >= |lines| || !Contains(lines[timingLine], Arrow) {
        if |cues| == 0 {
          return Failure(TypeError);
        }
        ghost var before := cues;
        var last := cues[|cues| - 1];
        cues := cues[|cues| - 1 := last.(text := last.text + (Br + Join(lines, Br)))];
        assert cues == AppendToLast(before, Br + Join(lines, Br));
        i := i + 1;
        continue;
      }
      var parts := Split(lines[timingLine], TokenSeparators);
      var start := ParseTime(parts[0]);
      if start.Failure? && start.error.ParsingError? {
        return Failure(start.error);
      }
      if |parts| < 2 || parts[1] != Arrow {
        i := i + 1;
        continue;
      }
      if start.Failure? {
        return Failure(start.error);
      }
      if |parts| < 3 {
        return Failure(TypeError);
      }
      var stop := ParseTime(parts[2]);
      if stop.Failure? {
        return Failure(stop.error);
      }
      var text := Join(lines[timingLine + 1..], Br);
      cues := cues + [Cue(start.value, stop.value, text)];
      i := i + 1;
    }
    r := Success(SortByStart(cues));
  }

  /** `parse_srt` of static/subtitles.js: every block, from the first on. */
  method ParseSrt(raw: string) returns (r: Result<seq<Cue>>)
    ensures r == SrtCues(raw)
    ensures r.Success? ==> SortedByStart(r.value)
  {
    var blocks := Split(raw, BlankLineRun);
    r := ParseSrtBlocks(blocks, 0);
    assert blocks[0..] == blocks;
  }

  /** End of the line that starts at `i`: the first `\r` or `\n` at or after `i`, or `|s|`. */
  function LineEnd(s: string, i: nat): (k: nat)
    ensures i <= k
    ensures k <= |s| || k == i
    ensures i <= k < |s| ==> s[k] == '\r' || s[k] == '\n'
    ensures forall j :: i <= j < k && j < |s| ==> s[j] != '\r' && s[j] != '\n'
    decreases |s| - i
  {
    if i >= |s| || s[i] == '\r' || s[i] == '\n' then i else LineEnd(s, i + 1)
  }

  /** The line that starts at `i` ends at `k` when no line break character lies between
      and one (or the end of `s`) is at `k`. */
  lemma {:induction false} LineEndAt(s: string, i: nat, k: nat)
    requires i <= k <= |s|
    requires forall j :: i <= j < k ==> s[j] != '\r' && s[j] != '\n'
    requires k == |s| || s[k] == '\r' || s[k] == '\n'
    ensures LineEnd(s, i) == k
    decreases k - i
  {
    if i < k {
      LineEndAt(s, i + 1, k);
    }
  }

  /** Length of the match of `/^WEBVTT[^\r\n]*(?:\r?\n){1,}/` on `raw`, if it matches. */
  function VttHeaderLength(raw: string): (n: Option<nat>)
    ensures n.Some? <==> HasPrefix(raw, "WEBVTT") && LineBreakAt(raw, LineEnd(raw, 6)) > 0
    ensures n.Some? ==> 6 < n.value <= |raw|
    ensures n.Some? ==> LineBreaksBetween(raw, LineEnd(raw, 6), n.value) && LineBreakAt(raw, n.value) == 0
  {
    if !HasPrefix(raw, "WEBVTT") then None
    else
      var k := LineEnd(raw, 6);
      var run := BreakRun(raw, k);
      BreakRunCovers(raw, k);
      if run.0 == 0 then None else Some(k + run.1)
  }

  /** `WEBVTT` with no line break after its first line is no header: `parse_vtt` fails. */
  lemma VttHeaderNeedsBreak(title: string)
    requires Avoids(title, {'\r', '\n'})
    ensures VttHeaderLength("WEBVTT" + title).None?
    ensures VttHeaderLength("WEBVTT" + title + "\r").None?
    ensures VttHeaderLength("WEBVTT" + title + "\r\n\n").Some?
  {
    var a, b, c := "WEBVTT" + title, "WEBVTT" + title + "\r", "WEBVTT" + title + "\r\n\n";
    assert a[..6] == "WEBVTT" && b[..6] == "WEBVTT" && c[..6] == "WEBVTT";
    assert forall j :: 6 <= j < |a| ==> a[j] == title[j - 6] && b[j] == a[j] && c[j] == a[j];
    LineEndAt(a, 6, |a|);
    LineEndAt(b, 6, |a|);
    LineEndAt(c, 6, |a|);
  }

  /** `parse_vtt`: the matched header and the line breaks after it are cut off and the
      rest is read as SRT; with no match, `prefix[0]` is read on `null`. */
  function ParseVtt(raw: string): (r: Result<seq<Cue>>)
    ensures VttHeaderLength(raw).None? ==> r == Failure(TypeError)
    ensures VttHeaderLength(raw).Some? ==> r == SrtCues(raw[VttHeaderLength(raw).value..])
    ensures r.Success? ==> SortedByStart(r.value)
  {
    match VttHeaderLength(raw)
    case None => Failure(TypeError)
    case Some(n) => SrtCues(raw[n..])
  }

  /** `parse_subtitles`: the format is chosen by the suffix of the file name. */
  function ParseSubtitles(raw: string, hint: string): (r: Result<seq<Cue>>)
    ensures HasSuffix(hint, "srt") ==> r == SrtCues(raw)
    ensures !HasSuffix(hint, "srt") && HasSuffix(hint, "vtt") ==> r == ParseVtt(raw)
    ensures !HasSuffix(hint, "srt") && !HasSuffix(hint, "vtt") ==>
              r == Failure(ParsingError("unsupported format"))
    ensures r.Success? ==> SortedByStart(r.value)
  {
    if HasSuffix(hint, "srt") then SrtCues(raw)
    else if HasSuffix(hint, "vtt") then ParseVtt(raw)
    else Failure(ParsingError("unsupported format"))
  }
}
