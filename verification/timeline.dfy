/** `get_current_subtitle`: the bisection that finds, for a playback time, the cue before,
    the cue on screen and the cue after; and what `update_subtitle` derives from that triple
    (the text to show and the time of the next change). */
module Timeline {
  import opened Wrappers
  import opened Cues

  /** `[previous, current, next]`, with JavaScript's `null` as `None`. */
  datatype Triple = Triple(previous: Option<Cue>, current: Option<Cue>, next: Option<Cue>)

  const Nothing: Triple := Triple(None, None, None)

  /** `s[i] || null`: the cue at `i`, or `None` outside the list (`s[-1]` included). */
  function At(s: seq<Cue>, i: int): (c: Option<Cue>)
    ensures c.Some? <==> 0 <= i < |s|
    ensures c.Some? ==> c.value == s[i]
  {
    if 0 <= i < |s| then Some(s[i]) else None
  }

  /** Index `a` is where the bisection may stop: `a` is 0 or starts no later than `time`,
      and the cue after `a`, if any, starts after `time`. */
  predicate Brackets(s: seq<Cue>, a: int, time: real)
  {
    && 0 <= a < |s|
    && (a == 0 || s[a].start <= time)
    && (a + 1 == |s| || time < s[a + 1].start)
  }

  /** The triple chosen once the bisection has settled on `a`. */
  function Select(s: seq<Cue>, a: nat, time: real): (r: Triple)
    requires a < |s|
    ensures time < s[a].start ==> r == Triple(None, None, Some(s[a]))
    ensures s[a].start <= time <= s[a].stop ==> r == Triple(At(s, a - 1), Some(s[a]), At(s, a + 1))
    ensures s[a].start <= time && s[a].stop < time ==> r == Triple(Some(s[a]), None, At(s, a + 1))
  {
    if time < s[a].start then Triple(None, None, Some(s[a]))
    else if s[a].start <= time && time <= s[a].stop then Triple(At(s, a - 1), Some(s[a]), At(s, a + 1))
    else Triple(Some(s[a]), None, At(s, a + 1))
  }

  /** Reference definition: the last cue whose start is not after `time`, or 0 when there
      is none. */
  function LastStartAtOrBefore(s: seq<Cue>, time: real): (k: nat)
    requires |s| > 0
    ensures k < |s|
    ensures forall j :: k < j < |s| ==> time < s[j].start
    ensures s[k].start <= time || (k == 0 && forall j :: 0 <= j < |s| ==> time < s[j].start)
  {
    if |s| == 1 || s[|s| - 1].start <= time then |s| - 1
    else LastStartAtOrBefore(s[..|s| - 1], time)
  }

  /** On a list sorted by start, the only place the bisection can stop is the last cue
      starting no later than `time` (ties go to the later cue), or 0 when none does. */
  lemma BracketsUnique(s: seq<Cue>, a: nat, time: real)
    requires SortedByStart(s) && Brackets(s, a, time)
    ensures a == LastStartAtOrBefore(s, time)
  {
  }

  /** The triple for `time` on a list sorted by start. */
  function Locate(s: seq<Cue>, time: real): Triple
    requires |s| > 0
  {
    Select(s, LastStartAtOrBefore(s, time), time)
  }

  /** What `get_current_subtitle` returns for a list sorted by start, or throws. */
  function Lookup(subtitles: Option<seq<Cue>>, time: real): Result<Triple>
  {
    match subtitles
    case None => Success(Nothing)
    case Some(s) => if s == [] then Failure(TypeError) else Success(Locate(s, time))
  }

  /** `get_current_subtitle`: a null list yields three nulls; otherwise the loop halves
      `[a, b)` until one index is left, reading `subtitles[0]` even when the list is empty. */
  method GetCurrentSubtitle(subtitles: Option<seq<Cue>>, time: real) returns (r: Result<Triple>)
    ensures subtitles.None? ==> r == Success(Nothing)
    ensures subtitles == Some([]) ==> r == Failure(TypeError)
    ensures subtitles.Some? && subtitles.value != [] ==>
              r.Success? && exists a :: Brackets(subtitles.value, a, time) && r.value == Select(subtitles.value, a, time)
    ensures subtitles.Some? && SortedByStart(subtitles.value) ==> r == Lookup(subtitles, time)
  {
    if subtitles.None? {
      return Success(Nothing);
    }
    var s := subtitles.value;
    var a := 0;
    var b := |s|;
    while b - a > 1
      invariant 0 <= a <= b <= |s| && (s != [] ==> a < b)
      invariant a == 0 || s[a].start <= time
      invariant b == |s| || time < s[b].start
      decreases b - a
    {
      var m := a + (b - a) / 2;
      if time < s[m].start {
        b := m;
      } else {
        a := m;
      }
    }
    if s == [] {
      return Failure(TypeError);
    }
    assert Brackets(s, a, time);
    r := Success(Select(s, a, time));
    if SortedByStart(s) {
      BracketsUnique(s, a, time);
    }
  }

  /** Before the first cue: nothing shown, the first cue next. */
  lemma LocateBeforeFirst(s: seq<Cue>, time: real)
    requires SortedByStart(s) && |s| > 0 && time < s[0].start
    ensures Locate(s, time) == Triple(None, None, Some(s[0]))
  {
  }

  /** Inside cue `i` (the last to start by `time`): it is current, flanked by its neighbours. */
  lemma LocateInside(s: seq<Cue>, i: nat, time: real)
    requires SortedByStart(s) && i < |s|
    requires s[i].start <= time <= s[i].stop
    requires i + 1 == |s| || time < s[i + 1].start
    ensures Locate(s, time) == Triple(At(s, i - 1), Some(s[i]), At(s, i + 1))
  {
    BracketsUnique(s, i, time);
  }

  /** In the gap after cue `i`: it is previous, nothing is current, the following cue is next. */
  lemma LocateGap(s: seq<Cue>, i: nat, time: real)
    requires SortedByStart(s) && i < |s|
    requires s[i].start <= time && s[i].stop < time
    requires i + 1 == |s| || time < s[i + 1].start
    ensures Locate(s, time) == Triple(Some(s[i]), None, At(s, i + 1))
  {
    BracketsUnique(s, i, time);
  }

  /** The text `update_subtitle` puts on screen: the current cue's, or nothing. */
  function ShownText(t: Triple): string
  {
    if t.current.Some? then t.current.value.text else ""
  }

  /** What `update_subtitle` returns: the current cue's stop, else the next cue's start,
      else null. */
  function NextChange(t: Triple): (n: Option<real>)
    ensures t.current.Some? ==> n == Some(t.current.value.stop)
    ensures t.current.None? && t.next.Some? ==> n == Some(t.next.value.start)
    ensures n.None? <==> t.current.None? && t.next.None?
  {
    if t.current.Some? then Some(t.current.value.stop)
    else if t.next.Some? then Some(t.next.value.start)
    else None
  }

  /** Wherever the bisection stops, the next change is never behind the clock. */
  lemma NextChangeAhead(s: seq<Cue>, a: nat, time: real)
    requires Brackets(s, a, time)
    ensures NextChange(Select(s, a, time)).Some? ==> time <= NextChange(Select(s, a, time)).value
    ensures Select(s, a, time).current.None? && Select(s, a, time).next.Some? ==>
              time < Select(s, a, time).next.value.start
  {
  }

  /** The reference index is one where the bisection may stop. */
  lemma LastStartBrackets(s: seq<Cue>, time: real)
    requires |s| > 0
    ensures Brackets(s, LastStartAtOrBefore(s, time), time)
  {
  }

  /** The next cue of the triple always starts after `time`, and on a sorted list the
      previous cue never starts after it. */
  lemma {:induction false} LocateNeighbours(s: seq<Cue>, time: real)
    requires |s| > 0
    ensures Locate(s, time).next.Some? ==> time < Locate(s, time).next.value.start
    ensures NextChange(Locate(s, time)).Some? ==> time <= NextChange(Locate(s, time)).value
    ensures SortedByStart(s) && Locate(s, time).previous.Some? ==> Locate(s, time).previous.value.start <= time
  {
    var a := LastStartAtOrBefore(s, time);
    LastStartBrackets(s, time);
    NextChangeAhead(s, a, time);
    if SortedByStart(s) && a > 0 {
      assert s[a - 1].start <= s[a].start;
    }
  }

  /** On a sorted list nothing is left to show exactly when the last cue has started and
      ended by `time`. */
  lemma NothingLeftToShow(s: seq<Cue>, time: real)
    requires SortedByStart(s) && |s| > 0
    ensures NextChange(Locate(s, time)).None? <==> s[|s| - 1].start <= time && s[|s| - 1].stop < time
  {
    var n := |s| - 1;
    if s[n].start <= time {
      assert LastStartAtOrBefore(s, time) == n;
    }
  }
}
