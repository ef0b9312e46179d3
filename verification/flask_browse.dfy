/** The `browse` view of app.py: a missing path is a 404, a directory gets its sorted
    listing of subdirectories and videos, and a file gets the subtitle files found next to
    it, at most one per language. The disk is a `FileSystem` rooted at `static/`; the
    entries `iterdir` yields are a parameter. */
module FlaskBrowse {
  import opened Wrappers
  import opened Text
  import opened Paths
  import opened NameOrder

  /** The `languages` dictionary, in its insertion order (lines 8-13). */
  const Languages: seq<(Option<string>, string)> :=
    [(None, "Default"), (Some("eng"), "English"), (Some("fre"), "French"), (Some("jpn"), "Japanese")]

  /** `supported_subtitles_extensions`, in order (line 14). */
  const Extensions: seq<string> := ["vtt", "srt"]

  /** Index of the last `.` of `s`, if any. */
  function LastDotIndex(s: string): (k: Option<nat>)
    ensures k.Some? ==> k.value < |s| && s[k.value] == '.' && Avoids(s[k.value + 1..], {'.'})
    ensures k.None? ==> Avoids(s, {'.'})
  {
    if s == [] then None
    else if s[|s| - 1] == '.' then Some(|s| - 1)
    else
      var init := s[..|s| - 1];
      var k := LastDotIndex(init);
      if k.Some? then
        assert s[k.value + 1..] == init[k.value + 1..] + [s[|s| - 1]];
        k
      else
        assert s == init + [s[|s| - 1]];
        k
  }

  /** `PurePath.stem` as Python 3.4 to 3.13 computes it: the name without its suffix, which
      runs from the last `.` when that dot is neither the first nor the last character. */
  function Stem(name: string): (s: string)
    ensures HasPrefix(name, s)
    ensures s != name ==> 0 < |s| < |name| - 1 && name[|s|] == '.' && Avoids(name[|s| + 1..], {'.'})
    ensures s != name <==> LastDotIndex(name).Some? && 0 < LastDotIndex(name).value < |name| - 1
  {
    match LastDotIndex(name)
    case None => name
    case Some(i) => if 0 < i < |name| - 1 then name[..i] else name
  }

  /** Lines 54-57: `'.'.join` of the stem, the code unless it is `None`, and the extension. */
  function SubtitleName(stem: string, code: Option<string>, ext: string): (n: string)
    ensures HasPrefix(n, stem + ".") && HasSuffix(n, "." + ext)
    ensures |n| == |stem| + 1 + (if code.None? then 0 else |code.value| + 1) + |ext|
    ensures code.Some? ==> n[|stem| + 1..|stem| + 1 + |code.value|] == code.value && n[|stem| + 1 + |code.value|] == '.'
  {
    if code.None? then stem + "." + ext else stem + "." + code.value + "." + ext
  }

  /** The paths tried for one language, in the order of `Extensions`, all in `parent`. */
  function SubtitleCandidates(parent: Path, stem: string, code: Option<string>): (c: seq<Path>)
    ensures |c| == |Extensions|
    ensures forall k :: 0 <= k < |c| ==> c[k] == parent + [SubtitleName(stem, code, Extensions[k])]
  {
    seq(|Extensions|, k requires 0 <= k < |Extensions| => parent + [SubtitleName(stem, code, Extensions[k])])
  }

  /** The file one language gets: the first candidate that exists. */
  function SubtitleFor(fs: FileSystem, parent: Path, stem: string, code: Option<string>): Option<Path>
  {
    FirstExisting(Existing(fs), SubtitleCandidates(parent, stem, code))
  }

  /** The `.vtt` when it exists, else the `.srt` when it exists. */
  lemma VttBeforeSrt(fs: FileSystem, parent: Path, stem: string, code: Option<string>)
    ensures var vtt, srt := parent + [SubtitleName(stem, code, "vtt")], parent + [SubtitleName(stem, code, "srt")];
            && (vtt in Existing(fs) ==> SubtitleFor(fs, parent, stem, code) == Some(vtt))
            && (vtt !in Existing(fs) && srt in Existing(fs) ==> SubtitleFor(fs, parent, stem, code) == Some(srt))
            && (vtt !in Existing(fs) && srt !in Existing(fs) ==> SubtitleFor(fs, parent, stem, code).None?)
  {
    var c := SubtitleCandidates(parent, stem, code);
    if c[0] in Existing(fs) {
      FirstExistingAt(Existing(fs), c, 0);
    } else if c[1] in Existing(fs) {
      FirstExistingAt(Existing(fs), c, 1);
    }
  }

  /** One `[code, label, path]` of the `subtitles` list. */
  datatype Subtitle = Subtitle(code: Option<string>, name: string, path: Path)

  /** `subtitles` once the loop has visited `languages`: one entry per language that found
      a file, in the order of `languages`. */
  function SubtitlesFor(fs: FileSystem, parent: Path, stem: string, languages: seq<(Option<string>, string)>)
    : seq<Subtitle>
  {
    if languages == [] then []
    else
      var (code, languageName) := languages[|languages| - 1];
      SubtitlesFor(fs, parent, stem, languages[..|languages| - 1])
        + (match SubtitleFor(fs, parent, stem, code)
           case None => []
           case Some(p) => [Subtitle(code, languageName, p)])
  }

  /** Lines 53-61, the inner loop: the extensions are tried in order and the first path
      that exists is taken. */
  method FirstSubtitle(fs: FileSystem, parent: Path, stem: string, code: Option<string>)
    returns (found: Option<Path>)
    ensures found == SubtitleFor(fs, parent, stem, code)
  {
    var candidates := SubtitleCandidates(parent, stem, code);
    for j := 0 to |Extensions|
      invariant forall k :: 0 <= k < j ==> candidates[k] !in Existing(fs)
    {
      var subtitleFilename := if code.None? then stem + "." + Extensions[j]
                              else stem + "." + code.value + "." + Extensions[j];
      var subtitlePath := parent + [subtitleFilename];
      assert subtitlePath == candidates[j];
      if IsFile(fs, subtitlePath) || IsDir(fs, subtitlePath) {
        FirstExistingAt(Existing(fs), candidates, j);
        return Some(subtitlePath);
      }
    }
    return None;
  }

  /** One more language visited: its entry, if it found a file, goes last. */
  lemma SubtitlesForNext(fs: FileSystem, parent: Path, stem: string,
                         languages: seq<(Option<string>, string)>, i: nat)
    requires i < |languages|
    ensures SubtitlesFor(fs, parent, stem, languages[..i + 1])
            == SubtitlesFor(fs, parent, stem, languages[..i])
               + (match SubtitleFor(fs, parent, stem, languages[i].0)
                  case None => []
                  case Some(p) => [Subtitle(languages[i].0, languages[i].1, p)])
  {
    assert languages[..i + 1][..i] == languages[..i];
  }

  /** Lines 51-61: for each language, the extensions are tried in order and the first path
      that exists is appended before the inner loop breaks. */
  method FindSubtitles(fs: FileSystem, path: Path) returns (subtitles: seq<Subtitle>)
    requires path != []
    ensures subtitles == SubtitlesFor(fs, path[..|path| - 1], Stem(path[|path| - 1]), Languages)
  {
    var parent, stem := path[..|path| - 1], Stem(path[|path| - 1]);
    subtitles := [];
    for i := 0 to |Languages|
      invariant subtitles == SubtitlesFor(fs, parent, stem, Languages[..i])
    {
      var code, languageName := Languages[i].0, Languages[i].1;
      SubtitlesForNext(fs, parent, stem, Languages, i);
      var found := FirstSubtitle(fs, parent, stem, code);
      if found.Some? {
        subtitles := subtitles + [Subtitle(code, languageName, found.value)];
      }
    }
    assert Languages[..|Languages|] == Languages;
  }

  /** Languages are visited in order: the entries for `a + b` are those for `a`, then those
      for `b`. */
  lemma {:induction false} SubtitlesForAppend(fs: FileSystem, parent: Path, stem: string,
                                              a: seq<(Option<string>, string)>, b: seq<(Option<string>, string)>)
    ensures SubtitlesFor(fs, parent, stem, a + b) == SubtitlesFor(fs, parent, stem, a) + SubtitlesFor(fs, parent, stem, b)
    decreases |b|
  {
    if b == [] {
      assert a + b == a;
    } else {
      var init := b[..|b| - 1];
      assert (a + b)[..|a + b| - 1] == a + init;
      SubtitlesForAppend(fs, parent, stem, a, init);
    }
  }

  /** Each entry is a language's first existing candidate, and each language that has one
      gets its entry; every listed file exists and lies in the video's directory. */
  lemma {:induction false} SubtitlesForMembers(fs: FileSystem, parent: Path, stem: string,
                                               languages: seq<(Option<string>, string)>)
    ensures forall s :: s in SubtitlesFor(fs, parent, stem, languages) <==>
              (s.code, s.name) in languages && SubtitleFor(fs, parent, stem, s.code) == Some(s.path)
    ensures forall s :: s in SubtitlesFor(fs, parent, stem, languages) ==>
              s.path in Existing(fs) && |s.path| == |parent| + 1 && s.path[..|parent|] == parent
  {
    if languages != [] {
      var init := languages[..|languages| - 1];
      SubtitlesForMembers(fs, parent, stem, init);
      var last := languages[|languages| - 1];
      assert languages == init + [last];
      var r0 := SubtitlesFor(fs, parent, stem, init);
      var tail := match SubtitleFor(fs, parent, stem, last.0)
                  case None => []
                  case Some(p) => [Subtitle(last.0, last.1, p)];
      assert SubtitlesFor(fs, parent, stem, languages) == r0 + tail;
      forall s: Subtitle ensures s in r0 + tail <==>
                (s.code, s.name) in languages && SubtitleFor(fs, parent, stem, s.code) == Some(s.path)
      {
        if (s.code, s.name) == last && SubtitleFor(fs, parent, stem, s.code) == Some(s.path) {
          assert tail == [s];
        }
      }
      forall s | s in SubtitlesFor(fs, parent, stem, languages)
        ensures s.path in Existing(fs) && |s.path| == |parent| + 1 && s.path[..|parent|] == parent
      {
        var c := SubtitleCandidates(parent, stem, s.code);
        var k :| 0 <= k < |c| && c[k] == s.path;
      }
    }
  }

  predicate DistinctCodes(r: seq<Subtitle>)
  {
    forall i, j :: 0 <= i < j < |r| ==> r[i].code != r[j].code
  }

  /** With distinct codes there is at most one entry per language. */
  lemma {:induction false} OnePerLanguage(fs: FileSystem, parent: Path, stem: string,
                                          languages: seq<(Option<string>, string)>)
    requires forall i, j :: 0 <= i < j < |languages| ==> languages[i].0 != languages[j].0
    ensures DistinctCodes(SubtitlesFor(fs, parent, stem, languages))
  {
    if languages != [] {
      var init := languages[..|languages| - 1];
      OnePerLanguage(fs, parent, stem, init);
      SubtitlesForMembers(fs, parent, stem, init);
      var r := SubtitlesFor(fs, parent, stem, languages);
      var r0 := SubtitlesFor(fs, parent, stem, init);
      var (code, languageName) := languages[|languages| - 1];
      var tail := match SubtitleFor(fs, parent, stem, code)
                  case None => []
                  case Some(p) => [Subtitle(code, languageName, p)];
      assert r == r0 + tail && |tail| <= 1;
      assert forall k :: 0 <= k < |init| ==> init[k].0 != code by {
        forall k | 0 <= k < |init| ensures init[k].0 != code {
          assert init[k] == languages[k];
        }
      }
      forall i, j | 0 <= i < j < |r| ensures r[i].code != r[j].code {
        if j >= |r0| {
          assert r[j] == tail[j - |r0|] && r[j].code == code;
          assert i < |r0| && r[i] == r0[i] && r[i] in r0;
          assert (r[i].code, r[i].name) in init;
        } else {
          assert r[i] == r0[i] && r[j] == r0[j];
        }
      }
    }
  }

  /** The page for a video lists one subtitle per language at most, in the order of
      `languages`, the default (language-less) one first when it exists. */
  lemma VideoSubtitles(fs: FileSystem, path: Path)
    requires path != []
    ensures var r := SubtitlesFor(fs, path[..|path| - 1], Stem(path[|path| - 1]), Languages);
            && DistinctCodes(r)
            && (SubtitleFor(fs, path[..|path| - 1], Stem(path[|path| - 1]), None).Some? <==> r != [] && r[0].code.None?)
  {
    var parent, stem := path[..|path| - 1], Stem(path[|path| - 1]);
    OnePerLanguage(fs, parent, stem, Languages);
    var rest := Languages[1..];
    assert Languages == [Languages[0]] + rest;
    SubtitlesForAppend(fs, parent, stem, [Languages[0]], rest);
    SubtitlesForMembers(fs, parent, stem, rest);
    assert [Languages[0]][..0] == [];
    var first := SubtitlesFor(fs, parent, stem, [Languages[0]]);
    var r := SubtitlesFor(fs, parent, stem, Languages);
    if r != [] && first == [] {
      assert r[0] in SubtitlesFor(fs, parent, stem, rest);
      assert (r[0].code, r[0].name) in rest;
    }
  }

  /** The entries `keep` accepts, in their order. */
  function Keep(entries: seq<string>, keep: string -> bool): (r: seq<string>)
    ensures forall n :: n in r <==> n in entries && keep(n)
  {
    if entries == [] then []
    else (if keep(entries[0]) then [entries[0]] else []) + Keep(entries[1..], keep)
  }

  lemma {:induction false} KeepCount(entries: seq<string>, keep: string -> bool, x: string)
    ensures multiset(Keep(entries, keep))[x] == if keep(x) then multiset(entries)[x] else 0
  {
    if entries != [] {
      KeepCount(entries[1..], keep, x);
      assert entries == [entries[0]] + entries[1..];
    }
  }

  /** The kept entries depend on which entries there are, not on their order. */
  lemma KeepOrderFree(e1: seq<string>, e2: seq<string>, keep: string -> bool)
    requires multiset(e1) == multiset(e2)
    ensures multiset(Keep(e1, keep)) == multiset(Keep(e2, keep))
  {
    forall x ensures multiset(Keep(e1, keep))[x] == multiset(Keep(e2, keep))[x] {
      KeepCount(e1, keep, x);
      KeepCount(e2, keep, x);
    }
  }

  /** Lines 30-35: a non-hidden entry that is a directory. */
  predicate ListedDirectory(fs: FileSystem, path: Path, name: string)
  {
    !Hidden(name) && IsDir(fs, path + [name])
  }

  /** Lines 36-42: a non-hidden entry that is not a directory and is named like a video. */
  predicate ListedFile(fs: FileSystem, path: Path, name: string)
  {
    && !Hidden(name) && !IsDir(fs, path + [name])
    && (HasSuffix(name, ".mp4") || HasSuffix(name, ".webm"))
  }

  /** `path` followed by each of `names`. */
  function Under(path: Path, names: seq<string>): (r: seq<Path>)
    ensures |r| == |names|
    ensures forall i :: 0 <= i < |r| ==> r[i] == path + [names[i]]
  {
    seq(|names|, i requires 0 <= i < |names| => path + [names[i]])
  }

  /** The `directories` of the listing: sorted paths of the listed subdirectories. */
  function Directories(fs: FileSystem, path: Path, entries: seq<string>): seq<Path>
  {
    Under(path, SortNames(Keep(entries, n => ListedDirectory(fs, path, n))))
  }

  /** The `files` of the listing: sorted paths of the listed videos. */
  function Files(fs: FileSystem, path: Path, entries: seq<string>): seq<Path>
  {
    Under(path, SortNames(Keep(entries, n => ListedFile(fs, path, n))))
  }

  /** Paths under `path` of ordered names are in `PurePath` order. */
  lemma UnderOrdered(path: Path, names: seq<string>)
    requires Ordered(names)
    ensures forall i, j :: 0 <= i < j < |names| ==> PathLe(Under(path, names)[i], Under(path, names)[j])
  {
    forall i, j | 0 <= i < j < |names| ensures PathLe(Under(path, names)[i], Under(path, names)[j]) {
      PathLeSameParent(path, names[i], names[j]);
    }
  }

  /** `path + [n]` is among `Under(path, names)` exactly when `n` is among `names`. */
  lemma UnderMembers(path: Path, names: seq<string>)
    ensures forall n :: path + [n] in Under(path, names) <==> n in names
  {
    forall n ensures path + [n] in Under(path, names) <==> n in names {
      if path + [n] in Under(path, names) {
        var i :| 0 <= i < |names| && Under(path, names)[i] == path + [n];
        assert (path + [names[i]])[|path|] == names[i];
      }
      if n in names {
        var i :| 0 <= i < |names| && names[i] == n;
        assert Under(path, names)[i] == path + [n];
      }
    }
  }

  /** A child of `path` is listed among the directories exactly when it is an entry that is
      not hidden and is a directory; the list is in path order. */
  lemma DirectoriesListed(fs: FileSystem, path: Path, entries: seq<string>)
    ensures forall n :: path + [n] in Directories(fs, path, entries) <==> n in entries && ListedDirectory(fs, path, n)
    ensures var d := Directories(fs, path, entries);
            forall i, j :: 0 <= i < j < |d| ==> PathLe(d[i], d[j])
  {
    var kept := Keep(entries, n => ListedDirectory(fs, path, n));
    var dirs := SortNames(kept);
    UnderOrdered(path, dirs);
    UnderMembers(path, dirs);
    forall n ensures n in dirs <==> n in kept {
      assert n in dirs <==> n in multiset(dirs);
      assert n in kept <==> n in multiset(kept);
    }
  }

  /** A child of `path` is listed among the files exactly when it is an entry that is not
      hidden, not a directory and named like a video; the list is in path order. */
  lemma FilesListed(fs: FileSystem, path: Path, entries: seq<string>)
    ensures forall n :: path + [n] in Files(fs, path, entries) <==> n in entries && ListedFile(fs, path, n)
    ensures var f := Files(fs, path, entries);
            forall i, j :: 0 <= i < j < |f| ==> PathLe(f[i], f[j])
  {
    var kept := Keep(entries, n => ListedFile(fs, path, n));
    var files := SortNames(kept);
    UnderOrdered(path, files);
    UnderMembers(path, files);
    forall n ensures n in files <==> n in kept {
      assert n in files <==> n in multiset(files);
      assert n in kept <==> n in multiset(kept);
    }
  }

  /** Whatever order `iterdir` yields the entries in, the listing is the same. */
  lemma ListingOrderFree(fs: FileSystem, path: Path, e1: seq<string>, e2: seq<string>)
    requires multiset(e1) == multiset(e2)
    ensures Directories(fs, path, e1) == Directories(fs, path, e2)
    ensures Files(fs, path, e1) == Files(fs, path, e2)
  {
    var isDir := n => ListedDirectory(fs, path, n);
    var isFile := n => ListedFile(fs, path, n);
    KeepOrderFree(e1, e2, isDir);
    KeepOrderFree(e1, e2, isFile);
    SortNamesOrderFree(Keep(e1, isDir), Keep(e2, isDir));
    SortNamesOrderFree(Keep(e1, isFile), Keep(e2, isFile));
  }

  /** What `browse` answers. */
  datatype Response =
    | NotFound
    | Listing(path: Path, directories: seq<Path>, files: seq<Path>)
    | FilePage(path: Path, subtitles: seq<Subtitle>)

  /** `browse` (lines 22-68); `entries` is what `iterdir` yields when the path is a
      directory. */
  method Browse(fs: FileSystem, urlPath: string, entries: seq<string>) returns (r: Response)
    ensures var path := Components(urlPath);
            && (r.NotFound? <==> path !in Existing(fs))
            && (IsDir(fs, path) ==> r == Listing(path, Directories(fs, path, entries), Files(fs, path, entries)))
            && (IsFile(fs, path) && !IsDir(fs, path) ==>
                  r == FilePage(path, SubtitlesFor(fs, path[..|path| - 1], Stem(path[|path| - 1]), Languages)))
  {
    var path := Components(urlPath);
    if !(IsFile(fs, path) || IsDir(fs, path)) {
      return NotFound;
    }
    if IsDir(fs, path) {
      var directories := Under(path, SortNames(Keep(entries, n => ListedDirectory(fs, path, n))));
      var files := Under(path, SortNames(Keep(entries, n => ListedFile(fs, path, n))));
      return Listing(path, directories, files);
    }
    var subtitles := FindSubtitles(fs, path);
    return FilePage(path, subtitles);
  }
}
