/** The selection rules of index.php: the suffix test, the check on the `path` parameter,
    the poster and subtitle files looked up next to a video, the `<track>` attributes, and
    the directory listing. The disk is a `FileSystem`; `scandir`'s answer is a parameter. */
module IndexPage {
  import opened Wrappers
  import opened Text
  import opened Paths
  import Player

  /** PHP's `substr($s, -$n)` for `n > 0`: the last `n` characters, or all of `s` when it
      is shorter. */
  function LastChars(s: string, n: nat): (t: string)
    ensures |t| == if n <= |s| then n else |s|
    ensures HasSuffix(s, t)
  {
    if n <= |s| then s[|s| - n..] else s
  }

  /** `endswith`: an empty suffix always matches; otherwise the last `strlen($suffix)`
      characters must be the suffix. */
  function EndsWith(s: string, suffix: string): (b: bool)
    ensures suffix == [] ==> b
    ensures b <==> HasSuffix(s, suffix)
  {
    |suffix| == 0 || LastChars(s, |suffix|) == suffix
  }

  /** A suffix without `/` cannot reach back past the `/` that joins a directory and a
      name: testing `$path . '/' . $filename` is testing the name. */
  lemma NameSuffix(dir: string, name: string, suffix: string)
    requires Avoids(suffix, Slash)
    ensures EndsWith(dir + "/" + name, suffix) <==> EndsWith(name, suffix)
  {
    var s := dir + "/" + name;
    if |suffix| <= |name| {
      assert s[|s| - |suffix|..] == name[|name| - |suffix|..];
    } else if |suffix| <= |s| {
      var at := |suffix| - 1 - |name|;
      assert s[|s| - |suffix|..][at] == s[|dir|] == '/';
      assert suffix[at] != '/';
    }
  }

  /** A `..` at `i` that fills a whole segment: it follows the start or a `/` and is
      followed by a `/` or by the end, where PCRE's `$` (without the `D` modifier) also
      matches just before a final `\n`. */
  predicate DotDotAt(s: string, i: int)
  {
    && 0 <= i && i + 2 <= |s| && s[i] == '.' && s[i + 1] == '.'
    && (i == 0 || s[i - 1] == '/')
    && (i + 2 == |s| || s[i + 2] == '/' || (i + 3 == |s| && s[i + 2] == '\n'))
  }

  /** The pattern `^/|(^|/)\.\.(/|$)` matches `path`. */
  predicate Forbidden(path: string)
  {
    (|path| > 0 && path[0] == '/') || exists i | 0 <= i < |path| :: DotDotAt(path, i)
  }

  lemma DotDotWhole(p: string)
    requires Avoids(p, Slash)
    ensures (exists i :: DotDotAt(p, i)) <==> p == ".." || p == "..\n"
  {
    if p == ".." || p == "..\n" {
      assert DotDotAt(p, 0);
    }
    if i :| DotDotAt(p, i) {
      assert i == 0;
      assert p == p[..i + 2] + p[i + 2..];
    }
  }

  lemma DotDotCons(p: string, rest: string)
    requires Avoids(p, Slash)
    ensures (exists i :: DotDotAt(p + "/" + rest, i)) <==> p == ".." || exists j :: DotDotAt(rest, j)
  {
    var s := p + "/" + rest;
    var k := |p|;
    assert s[k] == '/';
    if p == ".." {
      assert DotDotAt(s, 0);
    }
    if j :| DotDotAt(rest, j) {
      assert s[k + 1 + j] == rest[j] && s[k + 2 + j] == rest[j + 1];
      assert j + 2 < |rest| ==> s[k + 3 + j] == rest[j + 2];
      assert j > 0 ==> s[k + j] == rest[j - 1];
      assert |s| == k + 1 + |rest|;
      assert DotDotAt(s, k + 1 + j);
    }
    if i :| DotDotAt(s, i) {
      if i + 2 <= k {
        assert p == s[..k];
      } else if i >= k + 1 {
        var j := i - (k + 1);
        assert rest[j] == s[i] && rest[j + 1] == s[i + 1];
        assert j > 0 ==> rest[j - 1] == s[i - 1];
        assert j + 2 < |rest| ==> rest[j + 2] == s[i + 2];
        assert |s| == k + 1 + |rest|;
        assert DotDotAt(rest, j);
      }
    }
  }

  /** The last `/`-separated segment of `path`. */
  function LastSegment(path: string): string
  {
    var pieces := Split(path, AnyOf(Slash));
    pieces[|pieces| - 1]
  }

  /** The `..` alternative matches exactly when some `/`-separated segment is `..`, or the
      last one is `..` and a newline. */
  lemma {:induction false} DotDotSegment(path: string)
    ensures (exists i :: DotDotAt(path, i)) <==> ".." in Split(path, AnyOf(Slash)) || LastSegment(path) == "..\n"
    decreases |path|
  {
    var k := FirstSlash(path);
    if k == |path| {
      assert path[..k] == path;
      SplitOnCharWhole(path, Slash);
      DotDotWhole(path);
    } else {
      var p, rest := path[..k], path[k + 1..];
      assert path == p + [path[k]] + rest;
      SplitOnCharCons(p, '/', rest, Slash);
      assert LastSegment(path) == LastSegment(rest);
      DotDotCons(p, rest);
      DotDotSegment(rest);
    }
  }

  /** Line 26 rejects a path exactly when it is absolute, one of its `/`-separated
      segments is `..`, or its last segment is `..` and a newline; a segment such as `...`
      or `..a` passes. */
  lemma PathCheck(path: string)
    ensures Forbidden(path) <==>
              || (|path| > 0 && path[0] == '/')
              || ".." in Split(path, AnyOf(Slash))
              || LastSegment(path) == "..\n"
  {
    DotDotSegment(path);
  }

  /** `$` matches before a final newline, so `..` followed by one is rejected too. */
  lemma TrailingNewlineForbidden()
    ensures Forbidden("..\n") && Forbidden("a/..\n")
    ensures !Forbidden("..\nb") && !Forbidden("...")
  {
    assert DotDotAt("..\n", 0);
    assert DotDotAt("a/..\n", 2);
    PathCheck("..\nb");
    PathCheck("...");
    SplitOnCharWhole("..\nb", Slash);
    SplitOnCharWhole("...", Slash);
  }

  /** Lines 25-29: the `path` parameter, `.` when absent, is served only when it passes
      the pattern and names a directory. */
  function RequestedPath(pathParam: Option<string>): string
  {
    if pathParam.Some? then pathParam.value else "."
  }

  /** `is_dir("")` is false, so an empty `path` is never served. */
  predicate Served(fs: FileSystem, path: string)
  {
    path != "" && !Forbidden(path) && IsDir(fs, Components(path))
  }

  /** A served path never climbs out of the served directory: none of its components is
      `..` and it is not absolute. */
  lemma ServedStaysInside(fs: FileSystem, path: string)
    requires Served(fs, path)
    ensures ".." !in Components(path)
    ensures path == [] || path[0] != '/'
  {
    PathCheck(path);
  }

  /** Position of the last `.` after the last `/` of `s`, if any. */
  function LastDot(s: string): (k: Option<nat>)
    ensures k.Some? ==> k.value < |s| && s[k.value] == '.' && Avoids(s[k.value + 1..], {'.', '/'})
    ensures k.None? ==> forall i :: 0 <= i < |s| && s[i] == '.' ==> exists j :: i < j < |s| && s[j] == '/'
  {
    if s == [] || s[|s| - 1] == '/' then None
    else if s[|s| - 1] == '.' then Some(|s| - 1)
    else
      var init := s[..|s| - 1];
      var k := LastDot(init);
      if k.Some? then
        assert s[k.value + 1..] == init[k.value + 1..] + [s[|s| - 1]];
        k
      else k
  }

  /** Line 47: `dirname . '/' . filename` of the video, that is the video's path without
      the extension of its last component. */
  function Basename(video: string): (b: string)
    ensures HasPrefix(video, b)
    ensures b == video || (video[|b|] == '.' && Avoids(video[|b| + 1..], {'.', '/'}))
    ensures b == video <==> LastDot(video).None?
  {
    match LastDot(video)
    case None => video
    case Some(k) => video[..k]
  }

  /** The candidates among `names` that `is_file` accepts. */
  function FilesAmong(fs: FileSystem, names: seq<string>): set<string>
  {
    set n | n in names && IsFile(fs, Components(n))
  }

  /** The poster names tried, in order (line 48). */
  function PosterCandidates(basename: string): seq<string>
  {
    [basename + ".jpg", basename + ".png"]
  }

  /** Lines 48-54: the first of `.jpg` and `.png` next to the video that is a file. */
  method ChoosePoster(fs: FileSystem, basename: string) returns (poster: Option<string>)
    ensures poster == FirstExisting(FilesAmong(fs, PosterCandidates(basename)), PosterCandidates(basename))
  {
    var extensions := ["jpg", "png"];
    var i := 0;
    while i < |extensions|
      invariant 0 <= i <= |extensions|
      invariant forall j :: 0 <= j < i ==> PosterCandidates(basename)[j] !in FilesAmong(fs, PosterCandidates(basename))
    {
      var filename := basename + "." + extensions[i];
      assert filename == PosterCandidates(basename)[i];
      if IsFile(fs, Components(filename)) {
        FirstExistingAt(FilesAmong(fs, PosterCandidates(basename)), PosterCandidates(basename), i);
        return Some(filename);
      }
      i := i + 1;
    }
    return None;
  }

  /** The poster is the `.jpg` when that is a file, else the `.png` when that is one. */
  lemma PosterPrefersJpg(fs: FileSystem, basename: string)
    ensures var p := FirstExisting(FilesAmong(fs, PosterCandidates(basename)), PosterCandidates(basename));
            && (IsFile(fs, Components(basename + ".jpg")) ==> p == Some(basename + ".jpg"))
            && (!IsFile(fs, Components(basename + ".jpg")) && IsFile(fs, Components(basename + ".png")) ==>
                  p == Some(basename + ".png"))
            && (!IsFile(fs, Components(basename + ".jpg")) && !IsFile(fs, Components(basename + ".png")) ==>
                  p.None?)
  {
    var c := PosterCandidates(basename);
    var e := FilesAmong(fs, c);
    if IsFile(fs, Components(c[0])) {
      FirstExistingAt(e, c, 0);
    } else if IsFile(fs, Components(c[1])) {
      FirstExistingAt(e, c, 1);
    }
  }

  /** The language codes tried, in order (lines 30-35). */
  const LanguageCodes: seq<string> := ["", "en", "fr", "ja"]

  function LanguageLabel(code: string): string
  {
    if code == "" then "Default"
    else if code == "en" then "English"
    else if code == "fr" then "French"
    else if code == "ja" then "Japanese"
    else code
  }

  /** Lines 57 and 64: `basename.ext` for the code `''`, `basename.code.ext` otherwise. */
  function CandidateName(basename: string, code: string, ext: string): (n: string)
    ensures HasPrefix(n, basename + ".") && HasSuffix(n, "." + ext)
    ensures |n| == |basename| + 1 + (if code == "" then 0 else |code| + 1) + |ext|
    ensures code != "" ==> n[|basename| + 1..|basename| + 1 + |code|] == code && n[|basename| + 1 + |code|] == '.'
  {
    if code == "" then basename + "." + ext else basename + "." + code + "." + ext
  }

  function SubtitleCandidates(basename: string, code: string): seq<string>
  {
    [CandidateName(basename, code, "vtt"), CandidateName(basename, code, "srt")]
  }

  /** The file one language gets: the `.vtt` if it is a file, else the `.srt` if it is. */
  function SubtitleFile(fs: FileSystem, basename: string, code: string): Option<string>
  {
    FirstExisting(FilesAmong(fs, SubtitleCandidates(basename, code)), SubtitleCandidates(basename, code))
  }

  lemma VttBeforeSrt(fs: FileSystem, basename: string, code: string)
    ensures var vtt, srt := CandidateName(basename, code, "vtt"), CandidateName(basename, code, "srt");
            && (IsFile(fs, Components(vtt)) ==> SubtitleFile(fs, basename, code) == Some(vtt))
            && (!IsFile(fs, Components(vtt)) && IsFile(fs, Components(srt)) ==> SubtitleFile(fs, basename, code) == Some(srt))
            && (!IsFile(fs, Components(vtt)) && !IsFile(fs, Components(srt)) ==> SubtitleFile(fs, basename, code).None?)
  {
    var c := SubtitleCandidates(basename, code);
    var e := FilesAmong(fs, c);
    if IsFile(fs, Components(c[0])) {
      FirstExistingAt(e, c, 0);
    } else if IsFile(fs, Components(c[1])) {
      FirstExistingAt(e, c, 1);
    }
  }

  /** One entry of `$subtitles`: language code and file. */
  datatype Subtitle = Subtitle(code: string, filename: string)

  /** `$subtitles` after the loop has visited `codes`: one entry per code that found a
      file, in the order of `codes`. */
  function SubtitlesFor(fs: FileSystem, basename: string, codes: seq<string>): seq<Subtitle>
  {
    if codes == [] then []
    else
      var code := codes[|codes| - 1];
      SubtitlesFor(fs, basename, codes[..|codes| - 1])
        + (match SubtitleFile(fs, basename, code)
           case None => []
           case Some(f) => [Subtitle(code, f)])
  }

  /** One more code visited: its entry, if it found a file, goes last. */
  lemma SubtitlesForNext(fs: FileSystem, basename: string, codes: seq<string>, i: nat)
    requires i < |codes|
    ensures SubtitlesFor(fs, basename, codes[..i + 1])
            == SubtitlesFor(fs, basename, codes[..i])
               + (match SubtitleFile(fs, basename, codes[i])
                  case None => []
                  case Some(f) => [Subtitle(codes[i], f)])
  {
    assert codes[..i + 1][..i] == codes[..i];
  }

  /** Lines 55-68: for each language, the `.vtt` is taken and the loop moves on; the `.srt`
      is only tried when there is no `.vtt`. */
  method FindSubtitles(fs: FileSystem, basename: string) returns (subtitles: seq<Subtitle>)
    ensures subtitles == SubtitlesFor(fs, basename, LanguageCodes)
  {
    subtitles := [];
    for i := 0 to |LanguageCodes|
      invariant subtitles == SubtitlesFor(fs, basename, LanguageCodes[..i])
    {
      var code := LanguageCodes[i];
      SubtitlesForNext(fs, basename, LanguageCodes, i);
      VttBeforeSrt(fs, basename, code);
      var filename := CandidateName(basename, code, "vtt");
      if IsFile(fs, Components(filename)) {
        subtitles := subtitles + [Subtitle(code, filename)];
        continue;
      }
      filename := CandidateName(basename, code, "srt");
      if IsFile(fs, Components(filename)) {
        subtitles := subtitles + [Subtitle(code, filename)];
      }
    }
    assert LanguageCodes[..|LanguageCodes|] == LanguageCodes;
  }

  /** The languages are visited in order: the entries for `a + b` are those for `a`, then
      those for `b`. */
  lemma {:induction false} SubtitlesForAppend(fs: FileSystem, basename: string, a: seq<string>, b: seq<string>)
    ensures SubtitlesFor(fs, basename, a + b) == SubtitlesFor(fs, basename, a) + SubtitlesFor(fs, basename, b)
    decreases |b|
  {
    if b == [] {
      assert a + b == a;
    } else {
      var init := b[..|b| - 1];
      assert (a + b)[..|a + b| - 1] == a + init;
      SubtitlesForAppend(fs, basename, a, init);
    }
  }

  /** Each entry's file is the one its code found, and each code that found a file has
      its entry. */
  lemma {:induction false} SubtitlesForMembers(fs: FileSystem, basename: string, codes: seq<string>)
    ensures forall s :: s in SubtitlesFor(fs, basename, codes) <==>
              s.code in codes && SubtitleFile(fs, basename, s.code) == Some(s.filename)
  {
    if codes != [] {
      var init := codes[..|codes| - 1];
      SubtitlesForMembers(fs, basename, init);
      assert codes == init + [codes[|codes| - 1]];
    }
  }

  /** With distinct codes there is at most one entry per code. */
  predicate DistinctCodes(r: seq<Subtitle>)
  {
    forall i, j :: 0 <= i < j < |r| ==> r[i].code != r[j].code
  }

  lemma {:induction false} OnePerCode(fs: FileSystem, basename: string, codes: seq<string>)
    requires forall i, j :: 0 <= i < j < |codes| ==> codes[i] != codes[j]
    ensures DistinctCodes(SubtitlesFor(fs, basename, codes))
  {
    if codes != [] {
      var init := codes[..|codes| - 1];
      OnePerCode(fs, basename, init);
      SubtitlesForMembers(fs, basename, init);
      var r := SubtitlesFor(fs, basename, codes);
      var r0 := SubtitlesFor(fs, basename, init);
      var last := codes[|codes| - 1];
      var tail := match SubtitleFile(fs, basename, last)
                  case None => []
                  case Some(f) => [Subtitle(last, f)];
      assert r == r0 + tail && |tail| <= 1;
      assert last !in init by {
        forall k | 0 <= k < |init| ensures init[k] != last {
          assert init[k] == codes[k];
        }
      }
      forall i, j | 0 <= i < j < |r| ensures r[i].code != r[j].code {
        if j >= |r0| {
          assert r[j] == tail[j - |r0|] && r[j].code == last;
          assert i < |r0| && r[i] == r0[i] && r[i] in r0;
          assert r[i].code in init;
          assert r[i].code != r[j].code;
        } else {
          assert r[i] == r0[i] && r[j] == r0[j];
          assert r0[i].code != r0[j].code;
        }
      }
    }
  }

  /** The attributes of one `<track>` (lines 137-145). */
  datatype TrackTag = TrackTag(name: string, srclang: Option<string>, isDefault: bool, src: string)

  /** Line 142: the code `''` gets `default`, every other code gets `srclang`. */
  function TrackTagOf(s: Subtitle): (t: TrackTag)
    ensures t.isDefault <==> s.code == ""
    ensures t.srclang.Some? <==> !t.isDefault
    ensures t.srclang.Some? ==> t.srclang.value == s.code
  {
    TrackTag(LanguageLabel(s.code), if s.code == "" then None else Some(s.code), s.code == "", s.filename)
  }

  /** What static/subtitles.js reads back from the emitted `<track>` tags. */
  function ClientTracks(subtitles: seq<Subtitle>): (tracks: seq<Player.Track>)
    ensures |tracks| == |subtitles|
    ensures forall i :: 0 <= i < |tracks| ==> tracks[i].src == subtitles[i].filename
    ensures forall i :: 0 <= i < |tracks| ==> (tracks[i].isDefault <==> subtitles[i].code == "")
  {
    seq(|subtitles|, i requires 0 <= i < |subtitles| =>
      var t := TrackTagOf(subtitles[i]);
      Player.Track(t.name, t.src, t.isDefault))
  }

  /** The page marks at most one track `default`, the first one, and only when the code
      `''` found a file: the player's default track is the language-less file. */
  lemma DefaultTrackFirst(fs: FileSystem, basename: string)
    ensures var r := SubtitlesFor(fs, basename, LanguageCodes);
            var tracks := ClientTracks(r);
            && Player.FirstDefault(tracks) == (if SubtitleFile(fs, basename, "").Some? then Some(0) else None)
            && forall i :: 0 <= i < |tracks| && tracks[i].isDefault ==> i == 0
  {
    var r := SubtitlesFor(fs, basename, LanguageCodes);
    var tracks := ClientTracks(r);
    LanguageLessFirst(fs, basename);
    if SubtitleFile(fs, basename, "").Some? {
      assert tracks[0].isDefault;
    } else {
      assert forall j :: 0 <= j < |tracks| ==> !tracks[j].isDefault;
    }
  }

  /** The entry of code `''`, when there is one, comes first, and no other entry has that
      code. */
  lemma LanguageLessFirst(fs: FileSystem, basename: string)
    ensures var r := SubtitlesFor(fs, basename, LanguageCodes);
            && (SubtitleFile(fs, basename, "").Some? <==> r != [] && r[0].code == "")
            && forall i :: 0 < i < |r| ==> r[i].code != ""
  {
    var rest := ["en", "fr", "ja"];
    assert LanguageCodes == [""] + rest;
    SubtitlesForAppend(fs, basename, [""], rest);
    var first := SubtitlesFor(fs, basename, [""]);
    var later := SubtitlesFor(fs, basename, rest);
    LanguageLessEntry(fs, basename);
    LanguageCodedEntries(fs, basename);
    var r := SubtitlesFor(fs, basename, LanguageCodes);
    assert r == first + later;
    forall i | |first| <= i < |r| ensures r[i].code != "" {
      assert r[i] == later[i - |first|];
    }
  }

  /** The loop's first step, over the code `''`, adds its entry when it found a file. */
  lemma LanguageLessEntry(fs: FileSystem, basename: string)
    ensures var f := SubtitleFile(fs, basename, "");
            SubtitlesFor(fs, basename, [""]) == if f.Some? then [Subtitle("", f.value)] else []
  {
    assert [""][..0] == [];
  }

  /** The entries of the other codes never have the code `''`. */
  lemma LanguageCodedEntries(fs: FileSystem, basename: string)
    ensures var later := SubtitlesFor(fs, basename, ["en", "fr", "ja"]);
            forall i :: 0 <= i < |later| ==> later[i].code != ""
  {
    var later := SubtitlesFor(fs, basename, ["en", "fr", "ja"]);
    SubtitlesForMembers(fs, basename, ["en", "fr", "ja"]);
    forall i | 0 <= i < |later| ensures later[i].code != "" {
      assert later[i] in later;
    }
  }


  /** `listing` splits the entries `scandir` returned into directories and files. */
  datatype Listing = Listing(directories: seq<string>, files: seq<string>)

  /** Lines 7-22 with `is_dir` asked about `base` followed by the name: dot-files are
      skipped, the rest kept in order. */
  function Classify(fs: FileSystem, base: Path, names: seq<string>): Listing
  {
    if names == [] then Listing([], [])
    else
      var l := Classify(fs, base, names[..|names| - 1]);
      var name := names[|names| - 1];
      if Hidden(name) then l
      else if IsDir(fs, base + Components(name)) then Listing(l.directories + [name], l.files)
      else Listing(l.directories, l.files + [name])
  }

  /** `listing`'s loop; it tests `is_dir` on `base + name`. As written the source passes the
      bare name, so `base` is the script's directory `[]`; the intended `base` is the
      listed path. */
  method ListEntries(fs: FileSystem, base: Path, names: seq<string>) returns (l: Listing)
    ensures l == Classify(fs, base, names)
  {
    l := Listing([], []);
    for i := 0 to |names|
      invariant l == Classify(fs, base, names[..i])
    {
      var name := names[i];
      assert names[..i + 1][..i] == names[..i];
      if Hidden(name) {
        continue;
      }
      if IsDir(fs, base + Components(name)) {
        l := Listing(l.directories + [name], l.files);
      } else {
        l := Listing(l.directories, l.files + [name]);
      }
    }
    assert names[..|names|] == names;
  }

  /** Every entry that is not a dot-file lands in exactly one list: among the directories
      when `base` plus its name is a directory, among the files otherwise. */
  lemma {:induction false} ClassifyMembers(fs: FileSystem, base: Path, names: seq<string>)
    ensures var l := Classify(fs, base, names);
            && (forall n :: n in l.directories <==> n in names && !Hidden(n) && IsDir(fs, base + Components(n)))
            && (forall n :: n in l.files <==> n in names && !Hidden(n) && !IsDir(fs, base + Components(n)))
  {
    if names != [] {
      var init := names[..|names| - 1];
      ClassifyMembers(fs, base, init);
      assert names == init + [names[|names| - 1]];
    }
  }

  /** At the top directory `.`, asking about the bare name is asking about the entry. */
  lemma ListingAtTop(fs: FileSystem, names: seq<string>)
    ensures Components(".") == []
    ensures Classify(fs, Components("."), names) == Classify(fs, [], names)
  {
    SplitOnCharWhole(".", Slash);
  }

  /** Lines 169-174: the files that get a link are those ending in `.mp4` or `.webm`. */
  function FileLinks(path: string, files: seq<string>): seq<string>
  {
    if files == [] then []
    else
      var f := files[|files| - 1];
      var file := path + "/" + f;
      FileLinks(path, files[..|files| - 1])
        + (if EndsWith(file, ".mp4") || EndsWith(file, ".webm") then [f] else [])
  }

  /** A file gets a link exactly when its own name ends in `.mp4` or `.webm`. */
  lemma {:induction false} FileLinksByName(path: string, files: seq<string>)
    ensures forall f :: f in FileLinks(path, files) <==>
              f in files && (EndsWith(f, ".mp4") || EndsWith(f, ".webm"))
  {
    if files != [] {
      var init := files[..|files| - 1];
      var f := files[|files| - 1];
      FileLinksByName(path, init);
      NameSuffix(path, f, ".mp4");
      NameSuffix(path, f, ".webm");
      assert files == init + [f];
    }
  }

  /** A disk where `videos/` holds the directory `season1`. */
  function NestedDirectory(): FileSystem
  {
    FileSystem({}, {["videos"], ["videos", "season1"]})
  }

  /** As written, listing `videos` asks `is_dir("season1")` relative to the script's
      directory, and the subdirectory is filed among the files ... */
  lemma NestedDirectoryMisfiled()
    ensures Classify(NestedDirectory(), [], ["season1"]) == Listing([], ["season1"])
  {
    var fs, names := NestedDirectory(), ["season1"];
    OneComponent(names[0]);
    assert names[..0] == [];
    assert !Hidden(names[0]);
    assert [] + [names[0]] == ["season1"];
    assert ["season1"] != ["videos"] by {
      assert "season1"[0] != "videos"[0];
    }
    assert ["season1"] !in fs.dirs;
  }

  /** ... where it gets no link, since its name is not a video's: it appears nowhere on
      the page. */
  lemma NestedDirectoryUnlinked()
    ensures FileLinks("videos", ["season1"]) == []
  {
    var f := "season1";
    assert !HasSuffix(f, ".mp4") && !HasSuffix(f, ".webm");
    NameSuffix("videos", f, ".mp4");
    NameSuffix("videos", f, ".webm");
    assert ["season1"][..0] == [] && ["season1"][0] == f;
  }

  /** Asked about `videos/season1`, the same entry is listed as a directory. */
  lemma NestedDirectoryListed()
    ensures Classify(NestedDirectory(), Components("videos"), ["season1"]) == Listing(["season1"], [])
  {
    OneComponent("season1");
    OneComponent("videos");
    assert ["season1"][..0] == [];
    assert ["videos"] + ["season1"] == ["videos", "season1"];
  }

  /** The entries of the listed directory `path` are asked about as `path/name`. */
  lemma ListingOfPath(fs: FileSystem, path: string, names: seq<string>)
    ensures var l := Classify(fs, Components(path), names);
            forall n :: n in l.directories <==> n in names && !Hidden(n) && IsDir(fs, Components(path + "/" + n))
  {
    ClassifyMembers(fs, Components(path), names);
    forall n | n in names {
      JoinComponents(path, n);
    }
  }

  /** Line 162: the link to a subdirectory, with a leading `./` removed. */
  function DirectoryLink(path: string, directory: string): string
  {
    var s := path + "/" + directory;
    if HasPrefix(s, "./") then s[2..] else s
  }

  /** The link names the same directory as `path/directory`. */
  lemma DirectoryLinkSame(path: string, directory: string)
    ensures Components(DirectoryLink(path, directory)) == Components(path) + Components(directory)
  {
    var s := path + "/" + directory;
    JoinComponents(path, directory);
    if HasPrefix(s, "./") {
      assert s == "." + "/" + s[2..];
      JoinComponents(".", s[2..]);
      SplitOnCharWhole(".", Slash);
    }
  }

  /** The video chosen by `file`, with what was found next to it. */
  datatype Video = Video(file: string, poster: Option<string>, subtitles: seq<Subtitle>)

  /** Lines 42-73: a `file` ending in `webm` or `mp4` is watched. */
  function Watched(fs: FileSystem, path: string, fileParam: Option<string>): Option<Video>
  {
    if fileParam.None? then None
    else
      var file := path + "/" + fileParam.value;
      if EndsWith(file, "webm") || EndsWith(file, "mp4") then
        var basename := Basename(file);
        Some(Video(file,
                   FirstExisting(FilesAmong(fs, PosterCandidates(basename)), PosterCandidates(basename)),
                   SubtitlesFor(fs, basename, LanguageCodes)))
      else None
  }

  const Title: string := "Rikaichan friendly subtitles"

  /** Lines 37-46 and 69-71: the title names the path, then the watched video, then
      whether subtitles were found. */
  function TitleOf(path: string, video: Option<Video>): (t: string)
    ensures HasPrefix(t, Title + " - Listing " + path)
    ensures video.Some? && video.value.subtitles != [] ==> HasSuffix(t, " (with subtitles)")
    ensures video.None? ==> t == Title + " - Listing " + path
    ensures video.Some? ==> HasPrefix(t, Title + " - Listing " + path + " - Watching " + video.value.file)
    ensures video.Some? && video.value.subtitles == [] ==>
              t == Title + " - Listing " + path + " - Watching " + video.value.file
    ensures video.Some? && video.value.subtitles != [] ==>
              t == Title + " - Listing " + path + " - Watching " + video.value.file + " (with subtitles)"
  {
    var listing := Title + " - Listing " + path;
    if video.None? then listing
    else
      var watching := listing + " - Watching " + video.value.file;
      if video.value.subtitles == [] then watching
      else
        var t := watching + " (with subtitles)";
        assert t[..|listing|] == listing && t[..|watching|] == watching;
        t
  }

  /** Lines 42-73: what a `file` parameter selects. */
  method WatchVideo(fs: FileSystem, path: string, fileParam: Option<string>) returns (video: Option<Video>)
    ensures video == Watched(fs, path, fileParam)
  {
    video := None;
    if fileParam.Some? {
      var file := path + "/" + fileParam.value;
      if EndsWith(file, "webm") || EndsWith(file, "mp4") {
        var basename := Basename(file);
        var poster := ChoosePoster(fs, basename);
        var subtitles := FindSubtitles(fs, basename);
        video := Some(Video(file, poster, subtitles));
      }
    }
  }

  /** The page: "Invalid path", or a title, the video if one is watched, the directories
      and the linked files. */
  datatype Page =
    | InvalidPath
    | Page(title: string, video: Option<Video>, directories: seq<string>, links: seq<string>)

  /** The script from top to bottom, as written; `names` is what `scandir($path)` returns.
      The listing asks `is_dir` about the bare name, relative to the script's directory. */
  method Serve(fs: FileSystem, pathParam: Option<string>, fileParam: Option<string>, names: seq<string>)
    returns (page: Page)
    ensures var path := RequestedPath(pathParam);
            && (page.InvalidPath? <==> !Served(fs, path))
            && (page.Page? ==>
                  var video := Watched(fs, path, fileParam);
                  var l := Classify(fs, [], names);
                  page == Page(TitleOf(path, video), video, l.directories, FileLinks(path, l.files)))
    ensures pathParam == Some("") ==> page.InvalidPath?
  {
    var path := RequestedPath(pathParam);
    if path == "" || Forbidden(path) || !IsDir(fs, Components(path)) {
      return InvalidPath;
    }
    var video := WatchVideo(fs, path, fileParam);
    var content := ListEntries(fs, [], names);
    page := Page(TitleOf(path, video), video, content.directories, FileLinks(path, content.files));
  }

  /** The script with the listing corrected to ask `is_dir` about `path/name`: every
      entry of the listed directory is classified by what it is. */
  method ServeCorrected(fs: FileSystem, pathParam: Option<string>, fileParam: Option<string>, names: seq<string>)
    returns (page: Page)
    ensures var path := RequestedPath(pathParam);
            && (page.InvalidPath? <==> !Served(fs, path))
            && (page.Page? ==>
                  var video := Watched(fs, path, fileParam);
                  var l := Classify(fs, Components(path), names);
                  && page == Page(TitleOf(path, video), video, l.directories, FileLinks(path, l.files))
                  && forall n :: n in page.directories <==>
                                   n in names && !Hidden(n) && IsDir(fs, Components(path + "/" + n)))
  {
    var path := RequestedPath(pathParam);
    if path == "" || Forbidden(path) || !IsDir(fs, Components(path)) {
      return InvalidPath;
    }
    var video := WatchVideo(fs, path, fileParam);
    var content := ListEntries(fs, Components(path), names);
    ListingOfPath(fs, path, names);
    page := Page(TitleOf(path, video), video, content.directories, FileLinks(path, content.files));
  }
}
