# Rikaichan-friendly subtitles, modelled in Dafny

The system puts subtitles on an HTML `<video>`. A script in the page does the work:
`static/subtitles.js` is the current copy and `subtitles.js` an older one. The script
downloads an SRT or WebVTT file and parses it into cues `{start, stop, text}`, sorted by
start time. It then keeps the cue for the current playback time on screen, arming a timer
for the next change. It also lets the viewer switch tracks and jump to the previous or next
cue. Two small servers build the page:

- `index.php` lists a directory and, for a chosen video, finds its poster and subtitle
  files and emits one `<track>` per subtitle file.
- `app.py`, a Flask application, serves the same listing and subtitle lookup under
  `/browse/`.

The model has the following modules:

| module | file | what it holds |
|---|---|---|
| `Wrappers` | wrappers.dfy | `Option` for `null`, `Result` for a value or a thrown error, `Outcome` for a handler that ran or threw. The errors are `ParsingError`, `TypeError` and `NotANumber`. |
| `Text` | text.dfy | JavaScript `split` on each regular expression the script uses (blank-line runs, `\r?\n`, a character class), `join`, `endsWith`, `trim`-emptiness and decimal digit strings. |
| `Cues` | cues.dfy | The cue record and `Array.prototype.sort` with comparator `a.start - b.start`, written as a stable insertion sort. |
| `CueParser` | cue_parser.dfy | `parse_time`, `parse_srt` (a loop that pushes cues and extends the last cue's text in place), `parse_vtt` and `parse_subtitles` of the current copy. |
| `SrtFormat` | srt_format.dfy | A writer for well-formed SRT and WebVTT files, and the round trips of the parser against it. |
| `Timeline` | timeline.dfy | `get_current_subtitle`: a bisection loop proved against a reference definition of the cue it must stop at. |
| `Player` | player.dfy | The `context` object of the current copy, as a class. It holds the media element's clock, the track list and index, the timer, `localStorage` and the subtitle requests. |
| `LegacyParser`, `LegacyPlayer` | legacy_parser.dfy, legacy_player.dfy | The older copy: a parser that starts at block 1, a `parse_vtt` that cuts `prefix.length` characters, and navigation without the `1e-9` offset. |
| `Paths` | paths.dfy | The disk as sets of file and directory paths, and path strings read as component lists. |
| `IndexPage` | index_page.dfy | The `index.php` rules and the page they produce. |
| `NameOrder` | name_order.dfy | Python string and path ordering, and `sorted`. |
| `FlaskBrowse` | flask_browse.dfy | The `browse` view of `app.py`. |

Times are exact `real` seconds, and every time component must be a digit string.
A component that is not one is reported as `NotANumber`. The script's unary `+` is more
lenient: it also reads signs, surrounding white space, exponents and `0x` numbers, and gives
`NaN` only for the rest (see "Left out").

## Model

| member | source | states |
|---|---|---|
| Text.Split | static/subtitles.js:150 | `split` always yields at least one piece |
| Text.SplitJoin | static/subtitles.js:160 | splitting the `\n` (or one-character) join of non-empty, separator-free pieces gives back exactly those pieces |
| Text.SplitJoinBlocks | static/subtitles.js:150 | splitting blocks joined by a blank line, where no block has a blank line inside, gives back exactly those blocks |
| Text.DigitsRoundTrip | static/subtitles.js:145 | reading back the decimal digits of `n` gives `n` |
| Text.BreakRunCovers | static/subtitles.js:150 | the greedy run `(?:\r?\n)*` covers only line breaks, each `\r` followed by `\n`, and stops where no line break starts |
| Cues.SortByStartSorted | static/subtitles.js:189 | the sort yields cues in ascending start order |
| Cues.SortByStartPermutes | static/subtitles.js:189 | the sort keeps the same cues, each as many times (multiset equality) |
| Cues.SortByStartStable | static/subtitles.js:189 | cues with equal start keep their parse order |
| Cues.SortByStartOfSorted | static/subtitles.js:189 | sorting an already sorted list changes nothing |
| CueParser.ParseTime | static/subtitles.js:134-146 | a `ParsingError` is thrown exactly when there are fewer than three `:`/`,`/`.` fields; otherwise the result is a non-negative number of seconds or `NaN` |
| CueParser.AppendToLast | static/subtitles.js:171 | a continuation block changes only the last cue, whose text gets the extra markup appended |
| CueParser.CuesOfBlocks | static/subtitles.js:152-190 | the loop fails exactly when collecting the blocks fails, with the same error; otherwise the result is sorted and holds exactly the collected cues |
| CueParser.SrtCues | static/subtitles.js:148-191 | whatever `parse_srt` returns is sorted by start |
| CueParser.ParseSrtBlocks | static/subtitles.js:152-188 | the imperative loop (push a cue, extend the last cue in place, drop a block or throw) returns `CuesOfBlocks` of the blocks it reads |
| CueParser.ParseSrt | static/subtitles.js:148-191 | `parse_srt` equals its specification and returns sorted cues |
| CueParser.VttHeaderLength | static/subtitles.js:195 | the header matches exactly when the text starts with `WEBVTT` and a line break `\r?\n` follows the rest of the first line; the match then reaches through the longest run of line breaks after that line, so no line break follows it (`WEBVTT` with no line break has no match) |
| CueParser.VttHeaderNeedsBreak | static/subtitles.js:195 | `WEBVTT` plus a title, alone or followed by a bare `\r`, has no match; followed by `\r\n\n` it has one |
| CueParser.ParseVtt | static/subtitles.js:193-197 | no header match gives `TypeError` (`prefix` is null); on a match the result is `parse_srt` of the text after the match; the cues returned are sorted |
| CueParser.ParseSubtitles | static/subtitles.js:199-209 | a hint ending in `srt` is read by `parse_srt`; otherwise one ending in `vtt` is read by `parse_vtt`; otherwise `ParsingError("unsupported format")` is thrown; the cues returned are sorted |
| SrtFormat.ParseStamp | static/subtitles.js:134-146 | a written stamp, with or without hours, parses back to `h*3600 + m*60 + s + ms/1000` |
| SrtFormat.ParseStampIgnoresExtra | static/subtitles.js:142-143 | with more than four fields, the fields after the fourth are ignored |
| SrtFormat.ParseTwoFieldsThrows | static/subtitles.js:138-139 | `MM:SS` (two fields) throws a `ParsingError` |
| SrtFormat.TimingTokens | static/subtitles.js:176 | a written timing line splits into start, `-->` and stop |
| SrtFormat.TimingLineFound | static/subtitles.js:163-168 | in a written block the timing line is found, and the lines after it are the text lines |
| SrtFormat.EntryBlock | static/subtitles.js:175-187 | one written block adds exactly its cue to the list |
| SrtFormat.CollectEntries | static/subtitles.js:152-188 | the loop over written blocks appends their cues in order |
| SrtFormat.SrtRoundTrip | static/subtitles.js:148-191 | parsing a written SRT file gives its cues, stably sorted by start |
| SrtFormat.CuesOfEntryBlocks | static/subtitles.js:152-190 | the blocks of well-formed entries parse to the entries' cues, stably sorted by start |
| SrtFormat.SrtRoundTripInOrder | static/subtitles.js:189 | if the file's cues are already in order, parsing gives them back unchanged |
| SrtFormat.VttRoundTrip | static/subtitles.js:193-197 | parsing a written WebVTT file (header line, one or more line feeds, then SRT blocks) gives its cues, sorted |
| SrtFormat.LeadingContinuationThrows | static/subtitles.js:169-171 | a file whose first block has no timing line throws `TypeError` (`cues[-1]`) |
| SrtFormat.OneCueExample | static/subtitles.js:148-191 | `1\n00:00:01,000 --> 00:00:02,500\nHello` parses to the single cue (1, 2.5, "Hello") |
| Timeline.At | static/subtitles.js:52-54 | `s[i] \|\| null` is the cue at `i` exactly when `i` is an index |
| Timeline.Select | static/subtitles.js:46-59 | the three cases that build the triple once the loop has stopped at `a` |
| Timeline.LastStartAtOrBefore | static/subtitles.js:32-42 | reference definition: the last cue whose start is not after `time` (ties go to the later cue), or 0 when there is none |
| Timeline.BracketsUnique | static/subtitles.js:32-42 | on a list sorted by start, the only index where the bisection can stop is the reference index |
| Timeline.GetCurrentSubtitle | static/subtitles.js:27-61 | `null` gives three nulls; `[]` throws `TypeError`; otherwise the loop stops at an index that brackets `time` and, on sorted input, returns the reference triple; the older copy subtitles.js:27-61 has the same lookup |
| Timeline.LocateBeforeFirst | static/subtitles.js:46-50 | before the first cue: nothing previous or current, and the first cue is next |
| Timeline.LocateInside | static/subtitles.js:51-54 | inside cue `i`: `i` is current, flanked by `i-1` and `i+1` |
| Timeline.LocateGap | static/subtitles.js:55-58 | between cues `i` and `i+1`: `i` is previous, nothing is current, `i+1` is next |
| Timeline.NextChange | static/subtitles.js:91-104 | the next change is the current cue's stop, else the next cue's start, else null exactly when neither exists |
| Timeline.NextChangeAhead | static/subtitles.js:110-119 | wherever the bisection stops, the next change is not behind the clock, so the armed delay is never negative at a positive rate |
| Timeline.LastStartBrackets | static/subtitles.js:32-42 | the reference index is a place where the loop may stop |
| Timeline.LocateNeighbours | static/subtitles.js:268-292 | the next cue starts after `time`; on sorted input the previous cue starts no later than `time` |
| Timeline.NothingLeftToShow | static/subtitles.js:99-103 | no further change is scheduled exactly when the last cue has started and ended |
| Player.JsRem | static/subtitles.js:212 | JavaScript `%`: the remainder lies in `[0, n)` for a non-negative index and in `(-n, 0]` for a negative one |
| Player.JsRemQuotient | static/subtitles.js:212 | `i == trunc(i/n)*n + i%n`, with the quotient rounded toward zero |
| Player.JsRemInRange | static/subtitles.js:212 | an index already in range is kept |
| Player.Eta | static/subtitles.js:117 | the delay is finite exactly when the rate is not 0, and then times the rate gives back the distance to the change; at rate 0 it is `NaN` exactly when the change is now and `Infinity` when it is ahead |
| Player.FirstDefault | static/subtitles.js:254-260 | the first track marked `default`, or none exactly when no track is marked |
| Player.Context.constructor | static/subtitles.js:83-89 | a new context has no tracks or cues, track index 0, nothing shown and no timer armed |
| Player.Context.AttachTracks | static/subtitles.js:296-297 | the track list becomes the tracks found |
| Player.Context.UpdateSubtitle | static/subtitles.js:91-104 | shows the current cue's text or clears the display, returns the next change, and throws on an empty list |
| Player.Context.UpdateLoop | static/subtitles.js:110-119 | cancels the old timer; arms none when paused or when no change is coming; otherwise arms `(next - currentTime) / playbackRate` as JavaScript computes it: a non-negative value at a positive rate, and `Infinity` (or `NaN` at a change) at rate 0 |
| Player.Context.SetSubtitlesTrack | static/subtitles.js:211-220 | stores `index % tracks.length` as the index and in `localStorage`, then requests that track's file; a negative remainder throws |
| Player.Context.CompleteLoad | static/subtitles.js:221-233 | any status but 200 or 0 changes nothing; a parse error leaves the cues; otherwise the parsed cues replace the old ones and the display is updated from them, even when they equal the old cues |
| Player.Context.DisableSubtitles | static/subtitles.js:237-241 | no cues, nothing shown, index -1 |
| Player.Context.CycleSubtitlesTrack | static/subtitles.js:264-266 | selects the track after the current one |
| Player.Context.SetSubtitlesTrackDefault | static/subtitles.js:243-262 | nothing without tracks; else the saved index, else the first default track, else 0 |
| Player.Context.JumpToPreviousSubtitle | static/subtitles.js:268-280 | goes to `previous.start + 1e-9`, or to 0 without a previous cue; does nothing without cues |
| Player.Context.JumpToNextSubtitle | static/subtitles.js:282-292 | goes to `next.start + 1e-9` (strictly later); does nothing without cues or without a next cue |
| Player.Context.DisableThenCycle | static/subtitles.js:237-266 | after disabling, cycling selects and requests track 0 |
| Player.Context.LateCompletionWins | static/subtitles.js:211-235 | when an earlier selection's file arrives last, its cues are kept while the index names the later track (there is no stale-download check) |
| LegacyParser.LegacySrtCues | subtitles.js:146-190 | what the older `parse_srt` returns is sorted |
| LegacyParser.LegacyParseSrt | subtitles.js:146-190 | the older loop, started at block 1, equals its specification |
| LegacyParser.LegacyParseVtt | subtitles.js:192-196 | no header match gives `TypeError`; otherwise one character (`prefix.length`) is cut and the rest is read as SRT |
| LegacyParser.LegacyParseSubtitles | subtitles.js:198-208 | a hint ending in `srt` is read by the older `parse_srt`, otherwise one ending in `vtt` by the older `parse_vtt`, otherwise `ParsingError("unsupported format")` |
| LegacyParser.LegacySrtDropsFirstEntry | subtitles.js:149-151 | a written SRT file is read without its first entry |
| LegacyParser.LegacyOneCueExample | subtitles.js:151 | the one-cue file gives that cue in the current copy and no cue in the older one |
| LegacyParser.LegacyVttBlocks | subtitles.js:194-195 | with at least two line feeds after the WebVTT header, the block stepped over is the rest of the header line |
| LegacyParser.LegacyVttAgrees | subtitles.js:192-196 | on such files both copies' `parse_vtt` give the same sorted cues |
| LegacyPlayer.LegacyContext.constructor | subtitles.js:83-87 | a new context has no cues, nothing shown, no timer and no request |
| LegacyPlayer.LegacyContext.UpdateSubtitle | subtitles.js:89-102 | shows the current cue's text or clears the display, and returns the next change |
| LegacyPlayer.LegacyContext.UpdateLoop | subtitles.js:108-117 | cancels the old timer and arms `(next - currentTime) / playbackRate` unless paused or nothing is coming: non-negative at a positive rate, `Infinity` or `NaN` at rate 0 |
| LegacyPlayer.LegacyContext.SetSubtitlesFile | subtitles.js:210-212 | the file is requested |
| LegacyPlayer.LegacyContext.CompleteLoad | subtitles.js:213-225 | any status but 200 or 0 changes nothing; otherwise the older parser's cues replace the list and the display is updated from them after every successful parse |
| LegacyPlayer.LegacyContext.NoneClicked | subtitles.js:242-245 | no cues and nothing shown |
| LegacyPlayer.LegacyContext.PreviousClicked | subtitles.js:268-280 | goes to exactly `previous.start` (never later than before), or to 0; does nothing without cues |
| LegacyPlayer.LegacyContext.NextClicked | subtitles.js:286-296 | goes to exactly `next.start`, which is strictly later; does nothing without cues or without a next cue |
| LegacyPlayer.LegacyContext.SetDefaultSubtitlesFile | subtitles.js:302-312 | requests the first `default` track, else the first track, else nothing |
| Paths.Existing | app.py:26 | a path exists exactly when it is a file or a directory |
| Paths.JoinComponents | index.php:43 | `a/b` names the components of `a` followed by those of `b` |
| Paths.OneComponent | app.py:58 | a name without `/` (not empty, not `.`) is one component |
| Paths.FirstExisting | index.php:48-54 | the first-hit loop: none exactly when no candidate exists; otherwise an existing candidate with every earlier one missing |
| Paths.FirstExistingAt | app.py:53-61 | if candidate `k` exists and no earlier one does, the loop returns `k` |
| IndexPage.LastChars | index.php:4 | `substr($s, -n)` is a suffix of length `min(n, strlen)` |
| IndexPage.EndsWith | index.php:2-5 | true for an empty suffix, and otherwise exactly when the string ends with the suffix |
| IndexPage.NameSuffix | index.php:170-171 | for a suffix without `/`, `path/name` ends with it exactly when `name` does |
| IndexPage.DotDotSegment | index.php:26 | the `(^\|/)\.\.(/\|$)` part of the regex matches exactly when `..` is one of the `/`-separated segments, or the last segment is `..` and a newline (PCRE's `$` matches before a final newline) |
| IndexPage.PathCheck | index.php:26 | a path is rejected exactly when it starts with `/`, has a `..` segment, or ends in the segment `..` plus a newline (`...` and `..a` pass) |
| IndexPage.TrailingNewlineForbidden | index.php:26 | `..\n` and `a/..\n` are rejected; `..\nb` and `...` pass |
| IndexPage.ServedStaysInside | index.php:26 | a served path is relative and none of its components is `..` |
| IndexPage.LastDot | index.php:47 | the extension dot is the last `.` with no `.` or `/` after it |
| IndexPage.Basename | index.php:47 | the basename is a prefix of the video path; it is the whole path exactly when the last component has no `.`, and otherwise stops at that component's last `.` |
| IndexPage.ChoosePoster | index.php:48-54 | the poster loop returns the first existing of `.jpg`, `.png` |
| IndexPage.PosterPrefersJpg | index.php:48-54 | the `.jpg` wins when it exists; the `.png` is a fallback; else no poster |
| IndexPage.CandidateName | index.php:57-64 | a candidate starts with `basename.` and ends in `.ext`; for a non-empty code the code itself and a `.` follow `basename.`, and for the code `''` nothing lies between |
| IndexPage.VttBeforeSrt | index.php:55-68 | for each code the `.vtt` wins when it is a file; the `.srt` is a fallback |
| IndexPage.FindSubtitles | index.php:55-68 | the loop with `continue` computes one entry per code that found a file, in code order |
| IndexPage.SubtitlesForAppend | index.php:55 | the loop over two code lists is the loop over each, concatenated |
| IndexPage.SubtitlesForMembers | index.php:55-68 | an entry's file is the one its code found, and each code that found a file has an entry |
| IndexPage.OnePerCode | index.php:55-68 | there is at most one entry per language code |
| IndexPage.TrackTagOf | index.php:137-145 | a track is `default` exactly when its code is `''`; every other track gets `srclang` set to its code |
| IndexPage.ClientTracks | index.php:137-145 | one player track per subtitle, in order, with its file as `src` and `default` when the code is `''` |
| IndexPage.DefaultTrackFirst | index.php:142 | the player's first default track is track 0 exactly when the language-less file exists; no other track is default |
| IndexPage.LanguageLessFirst | index.php:55-68 | the entry for code `''` is first exactly when the language-less file exists, and no later entry has that code |
| IndexPage.LanguageLessEntry | index.php:55-68 | the loop's first step, over code `''`, adds one entry exactly when the language-less file exists |
| IndexPage.LanguageCodedEntries | index.php:55-68 | the entries the codes `en`, `fr`, `ja` add never carry the code `''` |
| IndexPage.ListEntries | index.php:7-22 | the `listing` loop computes the classification of its entries |
| IndexPage.ClassifyMembers | index.php:10-19 | every entry that is not a dot-file lands in exactly one list: directories when it is a directory, files otherwise |
| IndexPage.ListingAtTop | index.php:7 | at the top directory, asking about the bare name is asking about the entry |
| IndexPage.FileLinksByName | index.php:169-174 | a file gets a link exactly when its name ends in `.mp4` or `.webm` |
| IndexPage.NestedDirectoryMisfiled | index.php:15 | as written, a subdirectory `season1` of `videos` is listed as a file |
| IndexPage.NestedDirectoryUnlinked | index.php:169-174 | so it gets no link at all |
| IndexPage.NestedDirectoryListed | index.php:15 | asking about `videos/season1` lists it as a directory |
| IndexPage.ListingOfPath | index.php:149 | the corrected listing asks about `path/name` for every entry |
| IndexPage.DirectoryLinkSame | index.php:161-162 | the subdirectory link, with `./` removed, names `path/directory` |
| IndexPage.TitleOf | index.php:37-71 | with no video the title is `... - Listing <path>`; with one it adds ` - Watching <video>`, and then ` (with subtitles)` exactly when some were found |
| IndexPage.WatchVideo | index.php:42-73 | a `file` ending in `webm` or `mp4` is watched, with the poster and subtitles found next to it |
| IndexPage.Serve | index.php:25-174 | "Invalid path" exactly when the path is empty, fails the pattern or is not a directory (an empty `path` parameter is invalid); otherwise the title, the video, and the directories and linked files of `listing($path)` as written, which asks `is_dir` about the bare names |
| IndexPage.ServeCorrected | index.php:149-174 | the same page with the listing asking about `path/name`: an entry is among the directories exactly when it is not a dot-file and `path/name` is a directory |
| NameOrder.NameLeTotal | app.py:30 | Python string order is total |
| NameOrder.NameLeTrans | app.py:30 | Python string order is transitive |
| NameOrder.NameLeAntisym | app.py:30 | Python string order is antisymmetric |
| NameOrder.SortNames | app.py:30-35 | `sorted` gives an ordered list of the same names (multiset equality) |
| NameOrder.OrderedUnique | app.py:30 | a multiset of names has one ordered arrangement |
| NameOrder.SortNamesOrderFree | app.py:30-42 | `sorted` does not depend on the order it is given the names in |
| NameOrder.PathLeSameParent | app.py:31 | paths in one directory compare as their names |
| FlaskBrowse.Stem | app.py:55 | `stem` as in Python 3.4 to 3.13 is a prefix; it differs from the name exactly when the last dot is neither first nor last |
| FlaskBrowse.SubtitleName | app.py:54-57 | the name starts with `stem.` and ends in `.ext`; for a code, the code itself and a `.` follow `stem.`, and for `None` nothing lies between |
| FlaskBrowse.SubtitleCandidates | app.py:53-58 | one candidate per extension, in the video's directory |
| FlaskBrowse.VttBeforeSrt | app.py:53-61 | the `.vtt` wins when it exists; the `.srt` is a fallback |
| FlaskBrowse.FirstSubtitle | app.py:53-61 | the inner loop with `break` finds the language's first existing candidate, or nothing |
| FlaskBrowse.FindSubtitles | app.py:51-61 | the nested loops with `break` compute one entry per language that found a file, in dictionary order |
| FlaskBrowse.SubtitlesForAppend | app.py:52 | the loop over two language lists is the loop over each, concatenated |
| FlaskBrowse.SubtitlesForMembers | app.py:52-61 | an entry is a language's first existing candidate, and each such language has one; every file exists in the video's directory |
| FlaskBrowse.OnePerLanguage | app.py:52-61 | at most one entry per language |
| FlaskBrowse.VideoSubtitles | app.py:8-14 | for the four languages: one entry each at most, and the default entry is first exactly when it exists |
| FlaskBrowse.Keep | app.py:33-34 | the comprehension's filter keeps exactly the entries that pass |
| FlaskBrowse.KeepOrderFree | app.py:30-42 | the filter keeps the same names whatever the `iterdir` order |
| FlaskBrowse.Under | app.py:31 | each listed name becomes the path of the entry |
| FlaskBrowse.DirectoriesListed | app.py:30-35 | a child is listed as a directory exactly when it is not hidden and is a directory; the list is in path order |
| FlaskBrowse.FilesListed | app.py:36-42 | a child is listed as a file exactly when it is not hidden, not a directory and ends in `.mp4` or `.webm`; the list is in path order |
| FlaskBrowse.ListingOrderFree | app.py:30-42 | the listing does not depend on the `iterdir` order |
| FlaskBrowse.Browse | app.py:22-68 | 404 exactly when the path does not exist; a directory gets its listing; a file gets its subtitles |

## Left out

- DOM construction and event wiring are not modelled: `$`, `$$`, `insertAfter`, the elements built by `create_subtitle_context`, the selector and navigator lists, `handle_keypress`, `enable_all_subtitles`, `main` and `addEventListener`. The handlers that the click and key events call are modelled as methods.
- Real `XMLHttpRequest` is not modelled. A download is a request appended to `requests` plus a separate `CompleteLoad(filename, status, body)`. `readyState` values other than 4 are left out because they return at once.
- `setTimeout` and `clearTimeout` are the `loopTimer` field, holding the delay in seconds as a JavaScript number (finite, an infinity or `NaN`). The browser's conversion of that delay (a non-finite or negative delay fires at once) and the callback firing are not modelled.
- `localStorage` is a map from keys to track indices. The `timeupdate` persistence of `currentTime` (static/subtitles.js:378-382) is storage I/O only and is left out.
- IEEE floating point is replaced by exact reals. Rounding, `+"abc"` giving `NaN` and later comparisons with `NaN` are not modelled; a non-digit time component is the error `NotANumber`. That includes components the unary `+` of static/subtitles.js:145 reads as numbers: a sign (`+5`), surrounding white space (` 5`), an exponent (`1e3`) or a hexadecimal literal (`0x1F`).
- The JavaScript regular-expression engine is replaced by a character-level `split` for the four expressions the script uses. `match(/-->/)` is substring containment. The WebVTT header regex is a hand-written matcher.
- Player.Context.SetSubtitlesTrack: with zero tracks JavaScript's `%` gives `NaN` and the track read throws. The model fails with `TypeError` before changing the index or storage, so the stored `NaN` is not modelled.
- Player.Context.SetSubtitlesTrack: `track.src` (static/subtitles.js:217) is the URL the browser resolves against the page, not the attribute text; the model requests the attribute text. The parse hint's `srt`/`vtt` suffix is the same either way.
- Player.Context.SetSubtitlesTrackDefault: the saved index is read from storage as a number. The string-to-number conversion of `localStorage.getItem` is not modelled.
- LegacyPlayer.LegacyContext.SetDefaultSubtitlesFile: the CSS selectors `track[kind=x-subtitles][default]` and `track[kind=x-subtitles]` are modelled as a search of the track list the page emits.
- `console.warn` and `console.log` are not modelled; they have no effect on state.
- Server output is not modelled: PHP `echo` and the HTML around it, the CSS, and Flask routing, `redirect` and `render_template`. Each server's result is a datatype of what it would show.
- The parent-directory link (`dirname($path)`, index.php:154-159) is HTML output only and is left out.
- Real `scandir`, `iterdir`, `is_file`, `is_dir` and `exists` are not modelled. The disk is a `FileSystem` of file and directory paths. The directory contents are a parameter `names`/`entries` in any order.
- IndexPage.Basename: PHP's `dirname` and `pathinfo` collapse repeated slashes and handle a trailing `/`. The model only cuts the extension and keeps the rest as written. This gives the same file for the paths `Components` reads.
- `..` inside the `file` parameter of index.php, and inside the URL path of app.py (`STATIC_DIR / path`, app.py:25), is not checked by the scripts; the operating system would resolve it. The model does not resolve it: `Components` keeps `..` as a component, which does not name an existing path.
- PHP's truthiness of the code `"0"` does not arise, because the codes are the fixed `''`, `en`, `fr`, `ja`.
- FlaskBrowse.Stem: follows `PurePath.stem` of Python 3.4 to 3.13. A name that is only dots, or that starts with its only dot, has no suffix. Python 3.14 changed the rule and is not modelled. There a single trailing dot is a suffix (the stem of `video.` is `video`). A stem must also keep a character other than a dot, so `..a` keeps its whole name. Under 3.14, different subtitle files would be tried next to such videos.
- `STATIC_DIR` and `relative_to` are not modelled. Paths are relative to the served directory from the start.

## Findings

| source | as written | input that shows it | evidently intended | confidence | as-written member | corrected member |
|---|---|---|---|---|---|---|
| subtitles.js:149-151 | `parse_srt` starts its loop at block 1 to step over a WebVTT header, but SRT files have no header | the SRT file `1\n00:00:01,000 --> 00:00:02,500\nHello` yields no cue | every block of an SRT file is read, as in static/subtitles.js:152 | not executed | LegacyParser.LegacyOneCueExample | SrtFormat.SrtRoundTrip |
| index.php:15 | `listing($path)` asks `is_dir($filename)` about the bare entry name, relative to the script's directory | `path=videos` where `videos/season1` is a directory and `./season1` does not exist: `season1` is listed as a file and, lacking a video suffix, gets no link | ask `is_dir($path . '/' . $filename)` | not executed | IndexPage.NestedDirectoryMisfiled | IndexPage.ServeCorrected |
