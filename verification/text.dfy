/** String helpers of the engine: JavaScript's `String.prototype.split` on the few
    regular expressions the source splits on, `Array.prototype.join`, substring and
    suffix tests, `trim`-emptiness and decimal digit strings. */
module Text {

  /** The separators the source splits on, one per regular expression. */
  datatype Separator =
    | BlankLineRun             // /(?:\r?\n){2,}/  : runs of at least two line breaks
    | LineBreak                // /\r?\n/          : one line break
    | AnyOf(chars: set<char>)  // /[:,\.]/, /[ \t]/, '/' : one character of a class

  /** Length of a line break `\r?\n` that starts at `i`, or 0 when none starts there. */
  function LineBreakAt(s: string, i: nat): (n: nat)
    ensures n <= 2
    ensures n > 0 ==> i + n <= |s| && s[i + n - 1] == '\n'
    ensures n == 0 <==> !(i < |s| && s[i] == '\n') && !(i + 1 < |s| && s[i] == '\r' && s[i + 1] == '\n')
  {
    if i < |s| && s[i] == '\n' then 1
    else if i + 1 < |s| && s[i] == '\r' && s[i + 1] == '\n' then 2
    else 0
  }

  /** The greedy run `(?:\r?\n)*` that starts at `i`: how many line breaks it holds
      and how many characters it covers. */
  function BreakRun(s: string, i: nat): (r: (nat, nat))
    ensures r.1 == 0 || i + r.1 <= |s|
    ensures r.0 == 0 <==> r.1 == 0
    ensures r.0 <= r.1
    decreases |s| - i
  {
    var n := LineBreakAt(s, i);
    if n == 0 then (0, 0)
    else
      var rest := BreakRun(s, i + n);
      (rest.0 + 1, rest.1 + n)
  }

  /** `s[i..j]` is one or more line breaks `\r?\n`: only `\r` and `\n`, each `\r` followed
      by a `\n` inside the run. */
  predicate LineBreaksBetween(s: string, i: nat, j: nat)
  {
    i < j <= |s| && forall k {:trigger s[k]} :: i <= k < j ==> s[k] == '\n' || (s[k] == '\r' && k + 1 < j && s[k + 1] == '\n')
  }

  /** The greedy run covers line breaks only, and no line break follows it. */
  lemma {:induction false} BreakRunCovers(s: string, i: nat)
    ensures var r := BreakRun(s, i);
            && (r.1 > 0 ==> LineBreaksBetween(s, i, i + r.1))
            && LineBreakAt(s, i + r.1) == 0
    decreases |s| - i
  {
    var n := LineBreakAt(s, i);
    if n > 0 {
      BreakRunCovers(s, i + n);
      var j := i + BreakRun(s, i).1;
      assert j == i + n + BreakRun(s, i + n).1;
      forall k | i <= k < j
        ensures s[k] == '\n' || (s[k] == '\r' && k + 1 < j && s[k + 1] == '\n')
      {
        if k >= i + n {
          var m := i + n;
          assert LineBreaksBetween(s, m, j);
          assert m <= k < j;
          assert s[k] == '\n' || (s[k] == '\r' && k + 1 < j && s[k + 1] == '\n');
        } else if n == 2 && k == i {
          assert s[i] == '\r';
        }
      }
    }
  }

  /** Length of the match of `sep` that starts at position `q` of `s`, 0 when none. */
  function MatchAt(sep: Separator, s: string, q: nat): (n: nat)
    ensures n > 0 ==> q + n <= |s|
  {
    match sep
    case BlankLineRun =>
      var run := BreakRun(s, q);
      if run.0 >= 2 then run.1 else 0
    case LineBreak => LineBreakAt(s, q)
    case AnyOf(cs) => if q < |s| && s[q] in cs then 1 else 0
  }

  /** `s.split(sep)` scanning from `q`: the piece that begins at 0 ends at the first
      match at or after `q`, and the rest of the string is split again. */
  function SplitFrom(s: string, sep: Separator, q: nat): (pieces: seq<string>)
    requires q <= |s|
    ensures |pieces| >= 1
    decreases |s|, |s| - q
  {
    if q == |s| then [s]
    else
      var n := MatchAt(sep, s, q);
      if n == 0 then SplitFrom(s, sep, q + 1)
      else [s[..q]] + SplitFrom(s[q + n..], sep, 0)
  }

  /** `s.split(sep)` for a separator that never matches the empty string. */
  function Split(s: string, sep: Separator): (pieces: seq<string>)
    ensures |pieces| >= 1
  {
    SplitFrom(s, sep, 0)
  }

  /** `pieces.join(d)`. */
  function Join(pieces: seq<string>, d: string): string
  {
    if |pieces| == 0 then ""
    else if |pieces| == 1 then pieces[0]
    else pieces[0] + d + Join(pieces[1..], d)
  }

  /** The characters at which a match of `sep` can begin. */
  function Starters(sep: Separator): set<char>
  {
    match sep
    case AnyOf(cs) => cs
    case _ => {'\r', '\n'}
  }

  /** No character of `s` is in `cs`. */
  predicate Avoids(s: string, cs: set<char>)
  {
    forall i :: 0 <= i < |s| ==> s[i] !in cs
  }

  /** `d` is the delimiter that `sep` matches in full between two joined pieces. */
  predicate IsDelimiter(sep: Separator, d: string)
  {
    match sep
    case AnyOf(cs) => |d| == 1 && d[0] in cs
    case LineBreak => d == "\n"
    case BlankLineRun => d == "\n\n"
  }

  /** No match of `sep` starts at a position in `[q, k)`. */
  predicate NoMatchBetween(sep: Separator, s: string, q: nat, k: nat)
  {
    forall i :: q <= i < k ==> MatchAt(sep, s, i) == 0
  }

  lemma {:induction false} SplitSkips(s: string, sep: Separator, q: nat, k: nat)
    requires q <= k <= |s|
    requires NoMatchBetween(sep, s, q, k)
    ensures SplitFrom(s, sep, q) == SplitFrom(s, sep, k)
    decreases k - q
  {
    if q < k {
      assert MatchAt(sep, s, q) == 0;
      SplitSkips(s, sep, q + 1, k);
    }
  }

  /** When the first match of `sep` is at `k`, the first piece is `s[..k]`. */
  lemma SplitFirst(s: string, sep: Separator, k: nat)
    requires k < |s|
    requires NoMatchBetween(sep, s, 0, k)
    requires MatchAt(sep, s, k) > 0
    ensures Split(s, sep) == [s[..k]] + Split(s[k + MatchAt(sep, s, k)..], sep)
  {
    SplitSkips(s, sep, 0, k);
  }

  /** A string in which `sep` never matches is its own only piece. */
  lemma SplitWhole(s: string, sep: Separator)
    requires NoMatchBetween(sep, s, 0, |s|)
    ensures Split(s, sep) == [s]
  {
    SplitSkips(s, sep, 0, |s|);
  }

  /** No match begins at a character that cannot start one. */
  lemma NoMatchAtNonStarter(sep: Separator, s: string, i: nat)
    requires i < |s| && s[i] !in Starters(sep)
    ensures MatchAt(sep, s, i) == 0
  {
  }

  /** Between two pieces, the delimiter is matched in full, and no further. */
  lemma {:induction false} DelimiterMatches(sep: Separator, d: string, x: string, y: string)
    requires IsDelimiter(sep, d)
    requires y == [] || y[0] !in Starters(sep)
    ensures MatchAt(sep, x + d + y, |x|) == |d|
  {
    var s := x + d + y;
    if sep.BlankLineRun? {
      assert s[|x|] == '\n' && s[|x| + 1] == '\n';
      assert LineBreakAt(s, |x| + 2) == 0;
      assert BreakRun(s, |x| + 2) == (0, 0);
      assert BreakRun(s, |x| + 1) == (1, 1);
      assert BreakRun(s, |x|) == (2, 2);
    }
  }

  /** Splitting the join of pieces free of separator characters gives back the pieces. */
  lemma {:induction false} SplitJoin(pieces: seq<string>, sep: Separator, d: string)
    requires |pieces| >= 1
    requires IsDelimiter(sep, d)
    requires forall j :: 0 <= j < |pieces| ==> |pieces[j]| > 0 && Avoids(pieces[j], Starters(sep))
    ensures Split(Join(pieces, d), sep) == pieces
  {
    var s := Join(pieces, d);
    var p := pieces[0];
    if |pieces| == 1 {
      forall i | 0 <= i < |s| ensures MatchAt(sep, s, i) == 0 {
        NoMatchAtNonStarter(sep, s, i);
      }
      SplitWhole(s, sep);
    } else {
      var rest := Join(pieces[1..], d);
      assert s == p + d + rest;
      assert rest[..|pieces[1]|] == pieces[1] by { JoinPrefix(pieces[1..], d); }
      forall i | 0 <= i < |p| ensures MatchAt(sep, s, i) == 0 {
        assert s[i] == p[i];
        NoMatchAtNonStarter(sep, s, i);
      }
      DelimiterMatches(sep, d, p, rest);
      assert (p + d + rest)[..|p|] == p;
      assert (p + d + rest)[|p| + |d|..] == rest;
      SplitFirst(s, sep, |p|);
      SplitJoin(pieces[1..], sep, d);
    }
  }

  /** A join begins with its first piece. */
  lemma JoinPrefix(pieces: seq<string>, d: string)
    requires |pieces| >= 1
    ensures |Join(pieces, d)| >= |pieces[0]| && Join(pieces, d)[..|pieces[0]|] == pieces[0]
  {
  }

  /** Splitting on a single character and joining back with it restores the string. */
  lemma {:induction false} JoinSplitFrom(s: string, c: char, q: nat)
    requires q <= |s|
    requires Avoids(s[..q], {c})
    ensures Join(SplitFrom(s, AnyOf({c}), q), [c]) == s
    decreases |s|, |s| - q
  {
    if q < |s| {
      var n := MatchAt(AnyOf({c}), s, q);
      if n == 0 {
        assert s[..q + 1] == s[..q] + [s[q]];
        JoinSplitFrom(s, c, q + 1);
      } else {
        var tail := SplitFrom(s[q + 1..], AnyOf({c}), 0);
        JoinSplitFrom(s[q + 1..], c, 0);
        assert SplitFrom(s, AnyOf({c}), q) == [s[..q]] + tail;
        assert s == s[..q] + [c] + s[q + 1..];
      }
    }
  }

  /** Every piece of a split on a character class is free of that class. */
  lemma {:induction false} SplitFromAvoids(s: string, cs: set<char>, q: nat)
    requires q <= |s|
    requires Avoids(s[..q], cs)
    ensures forall j :: 0 <= j < |SplitFrom(s, AnyOf(cs), q)| ==> Avoids(SplitFrom(s, AnyOf(cs), q)[j], cs)
    decreases |s|, |s| - q
  {
    if q < |s| {
      if MatchAt(AnyOf(cs), s, q) == 0 {
        assert s[..q + 1] == s[..q] + [s[q]];
        SplitFromAvoids(s, cs, q + 1);
      } else {
        SplitFromAvoids(s[q + 1..], cs, 0);
      }
    } else {
      assert s[..q] == s;
    }
  }

  /** A piece free of the class, then one separator character: the first piece is split off. */
  lemma SplitOnCharCons(p: string, c: char, rest: string, cs: set<char>)
    requires Avoids(p, cs) && c in cs
    ensures Split(p + [c] + rest, AnyOf(cs)) == [p] + Split(rest, AnyOf(cs))
  {
    var s := p + [c] + rest;
    forall i | 0 <= i < |p| ensures MatchAt(AnyOf(cs), s, i) == 0 {
      assert s[i] == p[i];
    }
    assert s[..|p|] == p && s[|p| + 1..] == rest;
    SplitFirst(s, AnyOf(cs), |p|);
  }

  /** A string free of the class is not split. */
  lemma SplitOnCharWhole(p: string, cs: set<char>)
    requires Avoids(p, cs)
    ensures Split(p, AnyOf(cs)) == [p]
  {
    SplitWhole(p, AnyOf(cs));
  }

  /** A block whose line breaks are single `\n`s between non-empty lines. */
  predicate SingleSpaced(p: string)
  {
    && |p| > 0
    && p[0] != '\n' && p[|p| - 1] != '\n'
    && (forall i :: 0 <= i < |p| ==> p[i] != '\r')
    && (forall i :: 0 <= i < |p| - 1 ==> p[i] == '\n' ==> p[i + 1] != '\n')
  }

  /** Non-empty lines without line breaks, joined by `\n`, make a single-spaced block. */
  lemma {:induction false} JoinLinesSingleSpaced(lines: seq<string>)
    requires |lines| >= 1
    requires forall j :: 0 <= j < |lines| ==> |lines[j]| > 0 && Avoids(lines[j], {'\r', '\n'})
    ensures SingleSpaced(Join(lines, "\n"))
  {
    if |lines| > 1 {
      var l0, rest := lines[0], Join(lines[1..], "\n");
      JoinLinesSingleSpaced(lines[1..]);
      var p := l0 + "\n" + rest;
      assert Join(lines, "\n") == p;
      forall i | 0 <= i < |p| ensures p[i] != '\r' {
        if i < |l0| { assert p[i] == l0[i]; }
        else if i > |l0| { assert p[i] == rest[i - |l0| - 1]; }
      }
      forall i | 0 <= i < |p| - 1 && p[i] == '\n' ensures p[i + 1] != '\n' {
        if i > |l0| {
          assert p[i] == rest[i - |l0| - 1] && p[i + 1] == rest[i + 1 - |l0| - 1];
        }
      }
    }
  }

  /** No run of two line breaks starts inside a single-spaced block. */
  lemma NoBlankRunInside(p: string, y: string, i: nat)
    requires SingleSpaced(p) && i < |p|
    ensures MatchAt(BlankLineRun, p + y, i) == 0
  {
    var s := p + y;
    if LineBreakAt(s, i) > 0 {
      assert s[i] == p[i];
      assert s[i] == '\n';
      assert i + 1 < |p|;
      assert s[i + 1] == p[i + 1];
      assert LineBreakAt(s, i + 1) == 0;
      assert BreakRun(s, i) == (1, 1);
    }
  }

  /** Splitting single-spaced blocks joined by blank lines gives back the blocks. */
  lemma {:induction false} SplitJoinBlocks(blocks: seq<string>)
    requires |blocks| >= 1
    requires forall j :: 0 <= j < |blocks| ==> SingleSpaced(blocks[j])
    ensures Split(Join(blocks, "\n\n"), BlankLineRun) == blocks
  {
    var s := Join(blocks, "\n\n");
    var p := blocks[0];
    if |blocks| == 1 {
      forall i | 0 <= i < |s| ensures MatchAt(BlankLineRun, s, i) == 0 {
        NoBlankRunInside(p, "", i);
        assert p + "" == p;
      }
      SplitWhole(s, BlankLineRun);
    } else {
      var rest := Join(blocks[1..], "\n\n");
      assert s == p + ("\n\n" + rest);
      JoinPrefix(blocks[1..], "\n\n");
      assert rest[0] == blocks[1][0];
      forall i | 0 <= i < |p| ensures MatchAt(BlankLineRun, s, i) == 0 {
        NoBlankRunInside(p, "\n\n" + rest, i);
      }
      DelimiterMatches(BlankLineRun, "\n\n", p, rest);
      assert s == p + "\n\n" + rest;
      assert s[..|p|] == p;
      assert s[|p| + 2..] == rest;
      SplitFirst(s, BlankLineRun, |p|);
      SplitJoinBlocks(blocks[1..]);
    }
  }

  /** `s` contains `sub` as a contiguous substring (JavaScript `s.match(/sub/)`). */
  predicate Contains(s: string, sub: string)
    decreases |s|
  {
    |sub| <= |s| && (s[..|sub|] == sub || Contains(s[1..], sub))
  }

  /** `s` ends with `suffix` (JavaScript `s.endsWith(suffix)`). */
  predicate HasSuffix(s: string, suffix: string)
  {
    |suffix| <= |s| && s[|s| - |suffix|..] == suffix
  }

  /** `s` begins with `prefix`. */
  predicate HasPrefix(s: string, prefix: string)
  {
    |prefix| <= |s| && s[..|prefix|] == prefix
  }

  /** The characters JavaScript's `trim` removes: white space and line terminators. */
  predicate IsJsWhitespace(c: char)
  {
    c in {' ', '\t', '\n', '\r', '\U{000B}', '\U{000C}', '\U{00A0}', '\U{FEFF}',
          '\U{1680}', '\U{2000}', '\U{2001}', '\U{2002}', '\U{2003}', '\U{2004}', '\U{2005}',
          '\U{2006}', '\U{2007}', '\U{2008}', '\U{2009}', '\U{200A}', '\U{2028}', '\U{2029}',
          '\U{202F}', '\U{205F}', '\U{3000}'}
  }

  /** `!s.trim()`: the string is empty once white space is trimmed. */
  predicate IsBlank(s: string)
  {
    forall i :: 0 <= i < |s| ==> IsJsWhitespace(s[i])
  }

  predicate IsDigit(c: char)
  {
    '0' <= c <= '9'
  }

  /** Only decimal digits (the empty string included, which JavaScript reads as 0). */
  predicate IsDigits(s: string)
  {
    forall i :: 0 <= i < |s| ==> IsDigit(s[i])
  }

  /** The number a digit string denotes, leading zeros allowed. */
  function DigitsValue(s: string): nat
    requires IsDigits(s)
  {
    if s == [] then 0
    else DigitsValue(s[..|s| - 1]) * 10 + (s[|s| - 1] as int - '0' as int)
  }

  /** The decimal representation of `n`, without leading zeros. */
  function NatToDigits(n: nat): (s: string)
    ensures |s| >= 1 && IsDigits(s)
  {
    if n < 10 then [('0' as int + n) as char]
    else NatToDigits(n / 10) + [('0' as int + n % 10) as char]
  }

  /** Reading back a written number gives the number. */
  lemma {:induction false} DigitsRoundTrip(n: nat)
    ensures DigitsValue(NatToDigits(n)) == n
  {
    var s := NatToDigits(n);
    if n >= 10 {
      DigitsRoundTrip(n / 10);
      assert s[..|s| - 1] == NatToDigits(n / 10);
    }
  }
}
