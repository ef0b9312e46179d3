/** Cues and their order: the `{start, stop, text}` records the parser produces and the
    stable sort by start time it ends with (`cues.sort((a, b) => a.start - b.start)`). */
module Cues {

  /** One timed caption; times are in seconds. */
  datatype Cue = Cue(start: real, stop: real, text: string)

  /** Ascending by start time; equal starts may appear in any number. */
  predicate SortedByStart(s: seq<Cue>)
  {
    forall i, j :: 0 <= i < j < |s| ==> s[i].start <= s[j].start
  }

  /** Where `Insert` places `x`: after every leading cue that does not start later. */
  function InsertPos(t: seq<Cue>, x: Cue): (p: nat)
    ensures p <= |t|
    ensures forall i :: 0 <= i < p ==> t[i].start <= x.start
    ensures p < |t| ==> x.start < t[p].start
  {
    if t == [] || x.start < t[0].start then 0
    else 1 + InsertPos(t[1..], x)
  }

  /** One step of a stable insertion sort: `x` goes after every cue of `t` starting no later. */
  function Insert(t: seq<Cue>, x: Cue): seq<Cue>
  {
    if t == [] then [x]
    else if x.start < t[0].start then [x] + t
    else [t[0]] + Insert(t[1..], x)
  }

  /** `Insert` splits `t` at `InsertPos` and puts `x` in between. */
  lemma {:induction false} InsertSplits(t: seq<Cue>, x: Cue)
    ensures Insert(t, x) == t[..InsertPos(t, x)] + [x] + t[InsertPos(t, x)..]
  {
    if t != [] && x.start >= t[0].start {
      InsertSplits(t[1..], x);
      assert t == [t[0]] + t[1..];
    }
  }

  lemma {:induction false} InsertPermutes(t: seq<Cue>, x: Cue)
    ensures multiset(Insert(t, x)) == multiset(t) + multiset{x}
  {
    var p := InsertPos(t, x);
    var a, b := t[..p], t[p..];
    InsertSplits(t, x);
    assert t == a + b;
    assert multiset(a + [x] + b) == multiset(a) + multiset([x]) + multiset(b);
  }

  /** JavaScript's stable `Array.prototype.sort` with comparator `a.start - b.start`. */
  function SortByStart(s: seq<Cue>): seq<Cue>
  {
    if s == [] then [] else Insert(SortByStart(s[..|s| - 1]), s[|s| - 1])
  }

  /** The cues of `s` that start exactly at `k`, in their order in `s`. */
  function StartingAt(s: seq<Cue>, k: real): seq<Cue>
  {
    if s == [] then []
    else (if s[0].start == k then [s[0]] else []) + StartingAt(s[1..], k)
  }

  lemma {:induction false} StartingAtAppend(a: seq<Cue>, b: seq<Cue>, k: real)
    ensures StartingAt(a + b, k) == StartingAt(a, k) + StartingAt(b, k)
  {
    if a == [] {
      assert a + b == b;
    } else {
      assert (a + b)[1..] == a[1..] + b;
      StartingAtAppend(a[1..], b, k);
    }
  }

  lemma {:induction false} StartingAtNone(u: seq<Cue>, k: real)
    requires forall i :: 0 <= i < |u| ==> u[i].start != k
    ensures StartingAt(u, k) == []
  {
    if u != [] {
      StartingAtNone(u[1..], k);
    }
  }

  lemma InsertSorted(t: seq<Cue>, x: Cue)
    requires SortedByStart(t)
    ensures SortedByStart(Insert(t, x))
  {
    var p := InsertPos(t, x);
    var r := Insert(t, x);
    InsertSplits(t, x);
    forall i, j | 0 <= i < j < |r| ensures r[i].start <= r[j].start {
      if j < p || i > p {
      } else if i == p {
        assert r[j] == t[j - 1];
      } else {
        assert r[i] == t[i];
      }
    }
  }

  /** The sort yields cues in ascending start order. */
  lemma {:induction false} SortByStartSorted(s: seq<Cue>)
    ensures SortedByStart(SortByStart(s))
  {
    if s != [] {
      SortByStartSorted(s[..|s| - 1]);
      InsertSorted(SortByStart(s[..|s| - 1]), s[|s| - 1]);
    }
  }

  /** The sort neither loses nor invents cues. */
  lemma {:induction false} SortByStartPermutes(s: seq<Cue>)
    ensures multiset(SortByStart(s)) == multiset(s)
  {
    if s != [] {
      SortByStartPermutes(s[..|s| - 1]);
      InsertPermutes(SortByStart(s[..|s| - 1]), s[|s| - 1]);
      assert s == s[..|s| - 1] + [s[|s| - 1]];
    }
  }

  /** In a sorted list, every cue from the insertion point on starts after `x`. */
  lemma SortedTailAfter(t: seq<Cue>, x: Cue)
    requires SortedByStart(t)
    ensures forall i :: InsertPos(t, x) <= i < |t| ==> x.start < t[i].start
  {
    var p := InsertPos(t, x);
    forall i | p <= i < |t| ensures x.start < t[i].start {
      assert t[p].start <= t[i].start;
    }
  }

  lemma {:induction false} InsertStable(t: seq<Cue>, x: Cue, k: real)
    requires forall i :: InsertPos(t, x) <= i < |t| ==> x.start < t[i].start
    ensures StartingAt(Insert(t, x), k) == StartingAt(t, k) + (if x.start == k then [x] else [])
  {
    if t == [] {
      assert Insert(t, x)[1..] == [];
    } else if x.start < t[0].start {
      assert Insert(t, x)[1..] == t;
      if x.start == k {
        StartingAtNone(t, k);
      }
    } else {
      assert Insert(t, x)[1..] == Insert(t[1..], x);
      InsertStable(t[1..], x, k);
    }
  }

  lemma InsertStableAfterSort(init: seq<Cue>, x: Cue, k: real)
    ensures StartingAt(Insert(SortByStart(init), x), k)
            == StartingAt(SortByStart(init), k) + (if x.start == k then [x] else [])
  {
    SortByStartSorted(init);
    SortedTailAfter(SortByStart(init), x);
    InsertStable(SortByStart(init), x, k);
  }

  /** The sort is stable: cues with equal start keep their parse order. */
  lemma {:induction false} SortByStartStable(s: seq<Cue>, k: real)
    ensures StartingAt(SortByStart(s), k) == StartingAt(s, k)
  {
    if s != [] {
      var init, last := s[..|s| - 1], s[|s| - 1];
      var sorted := SortByStart(init);
      assert SortByStart(s) == Insert(sorted, last);
      InsertStableAfterSort(init, last, k);
      SortByStartStable(init, k);
      assert s == init + [last];
      StartingAtAppend(init, [last], k);
      assert StartingAt([last], k) == (if last.start == k then [last] else []) by {
        assert [last][1..] == [];
      }
    }
  }

  /** Sorting an already sorted list changes nothing. */
  lemma {:induction false} SortByStartOfSorted(s: seq<Cue>)
    requires SortedByStart(s)
    ensures SortByStart(s) == s
  {
    if s != [] {
      var init := s[..|s| - 1];
      SortByStartOfSorted(init);
      var p := InsertPos(init, s[|s| - 1]);
      InsertSplits(init, s[|s| - 1]);
      assert p == |init|;
      assert s == init + [s[|s| - 1]];
    }
  }
}
