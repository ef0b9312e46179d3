/** What the two servers (index.php and app.py) know of the disk: which paths are files and
    which are directories. A path is its list of components, relative to the served
    directory (the script's own directory for index.php, `static/` for app.py). */
module Paths {
  import opened Wrappers
  import opened Text

  type Path = seq<string>

  /** The served directory itself, `[]`, always counts as a directory. */
  datatype FileSystem = FileSystem(files: set<Path>, dirs: set<Path>)

  predicate IsDir(fs: FileSystem, p: Path)
  {
    p == [] || p in fs.dirs
  }

  predicate IsFile(fs: FileSystem, p: Path)
  {
    p in fs.files
  }

  /** Every path that exists, as a file or as a directory. */
  function Existing(fs: FileSystem): (e: set<Path>)
    ensures forall p :: p in e <==> IsFile(fs, p) || IsDir(fs, p)
  {
    fs.files + fs.dirs + {[]}
  }

  /** A dot-file: `$filename[0] === '.'` in index.php, `name.startswith('.')` in app.py. */
  predicate Hidden(name: string)
  {
    |name| > 0 && name[0] == '.'
  }

  const Slash: set<char> := {'/'}

  /** Position of the first `/` of `s`, or `|s|` when there is none. */
  function FirstSlash(s: string): (k: nat)
    ensures k <= |s|
    ensures k < |s| ==> s[k] == '/'
    ensures Avoids(s[..k], Slash)
  {
    if s == [] || s[0] == '/' then 0
    else
      var k := 1 + FirstSlash(s[1..]);
      assert s[..k] == [s[0]] + s[1..][..k - 1];
      k
  }

  /** The pieces of `s` between `/`s that name something: empty pieces and `.` are
      dropped, as both PHP's file functions and Python's `pathlib` read `a//./b` as `a/b`. */
  function Segments(pieces: seq<string>): (r: Path)
    ensures forall i :: 0 <= i < |r| ==> r[i] != "" && r[i] != "." && r[i] in pieces
  {
    if pieces == [] then []
    else (if pieces[0] == "" || pieces[0] == "." then [] else [pieces[0]]) + Segments(pieces[1..])
  }

  /** The components a path string names. */
  function Components(s: string): Path
  {
    Segments(Split(s, AnyOf(Slash)))
  }

  lemma {:induction false} SegmentsAppend(a: seq<string>, b: seq<string>)
    ensures Segments(a + b) == Segments(a) + Segments(b)
  {
    if a != [] {
      assert (a + b)[1..] == a[1..] + b;
      SegmentsAppend(a[1..], b);
    } else {
      assert a + b == b;
    }
  }

  /** Splitting at a `/` splits the pieces: those of the left part, then those of the right. */
  lemma {:induction false} SplitAtSlash(a: string, b: string)
    ensures Split(a + "/" + b, AnyOf(Slash)) == Split(a, AnyOf(Slash)) + Split(b, AnyOf(Slash))
    decreases |a|
  {
    var k := FirstSlash(a);
    if k == |a| {
      assert a[..k] == a;
      SplitOnCharWhole(a, Slash);
      SplitOnCharCons(a, '/', b, Slash);
    } else {
      var p, r := a[..k], a[k + 1..];
      assert a == p + [a[k]] + r;
      SplitOnCharCons(p, '/', r, Slash);
      assert a + "/" + b == p + ['/'] + (r + "/" + b);
      SplitOnCharCons(p, '/', r + "/" + b, Slash);
      SplitAtSlash(r, b);
    }
  }

  /** `a . '/' . b` in PHP, `a / b` in Python: the components of both parts, in order. */
  lemma JoinComponents(a: string, b: string)
    ensures Components(a + "/" + b) == Components(a) + Components(b)
  {
    SplitAtSlash(a, b);
    SegmentsAppend(Split(a, AnyOf(Slash)), Split(b, AnyOf(Slash)));
  }

  /** A name without `/` is one component (unless it is empty or `.`). */
  lemma OneComponent(name: string)
    requires Avoids(name, Slash) && name != "" && name != "."
    ensures Components(name) == [name]
  {
    SplitOnCharWhole(name, Slash);
    assert Segments([name]) == [name] + Segments([]);
  }

  /** The first candidate that exists, trying them in order; `None` when none does. This
      is both servers' `foreach`/`for` loop that stops at the first hit. */
  function FirstExisting<T(==)>(existing: set<T>, candidates: seq<T>): (r: Option<T>)
    ensures r.None? <==> forall j :: 0 <= j < |candidates| ==> candidates[j] !in existing
    ensures r.Some? ==> r.value in existing
    ensures r.Some? ==> exists k :: 0 <= k < |candidates| && candidates[k] == r.value
                                    && forall j :: 0 <= j < k ==> candidates[j] !in existing
  {
    if candidates == [] then None
    else if candidates[0] in existing then Some(candidates[0])
    else
      var r := FirstExisting(existing, candidates[1..]);
      if r.Some? then
        var k :| 0 <= k < |candidates[1..]| && candidates[1..][k] == r.value
                 && forall j :: 0 <= j < k ==> candidates[1..][j] !in existing;
        assert candidates[k + 1] == r.value;
        r
      else r
  }

  /** The loop stops at index `k`: every earlier candidate is missing and `k` exists. */
  lemma FirstExistingAt<T>(existing: set<T>, candidates: seq<T>, k: nat)
    requires k < |candidates| && candidates[k] in existing
    requires forall j :: 0 <= j < k ==> candidates[j] !in existing
    ensures FirstExisting(existing, candidates) == Some(candidates[k])
  {
    var r := FirstExisting(existing, candidates);
    var k' :| 0 <= k' < |candidates| && candidates[k'] == r.value
              && forall j :: 0 <= j < k' ==> candidates[j] !in existing;
    assert k' == k;
  }
}
