/** The player context of static/subtitles.js: the loaded cues, the subtitle tracks and the
    selected one, the pending wake-up of the update loop, and the media element's clock,
    which the operations below read and change. The browser's `localStorage` is a map,
    a subtitle download is a request recorded when sent and a separate completion step,
    and the timer is the delay, in seconds, it was armed with. */
module Player {
  import opened Wrappers
  import opened Text
  import opened Cues
  import opened CueParser
  import opened Timeline

  /** A `<track kind="x-subtitles">` element: its label (`name`), its file and its `default` flag. */
  datatype Track = Track(name: string, src: string, isDefault: bool)

  /** What navigation adds to a cue's start, so that the new time lies inside the cue. */
  const Epsilon: real := 0.000000001

  /** JavaScript's `%` on integers: `n` is taken away from (or added to) `i` until what
      is left lies strictly between `-n` and `n` and has the sign of `i`. */
  function JsRem(i: int, n: int): (r: int)
    requires n > 0
    ensures i >= 0 ==> 0 <= r < n
    ensures i < 0 ==> -n < r <= 0
    decreases if i >= 0 then i else -i
  {
    if -n < i < n then i
    else if i >= n then JsRem(i - n, n)
    else JsRem(i + n, n)
  }

  /** The quotient of `i` by `n` rounded toward zero. */
  function JsQuot(i: int, n: int): int
    requires n > 0
    decreases if i >= 0 then i else -i
  {
    if -n < i < n then 0
    else if i >= n then JsQuot(i - n, n) + 1
    else JsQuot(i + n, n) - 1
  }

  /** The remainder is what is left once the quotient, rounded toward zero, is taken away. */
  lemma {:induction false} JsRemQuotient(i: int, n: int)
    requires n > 0
    ensures i == JsQuot(i, n) * n + JsRem(i, n)
    decreases if i >= 0 then i else -i
  {
    if i >= n {
      JsRemQuotient(i - n, n);
      var q := JsQuot(i - n, n);
      assert (q + 1) * n == q * n + n;
    } else if i <= -n {
      JsRemQuotient(i + n, n);
      var q := JsQuot(i + n, n);
      assert (q - 1) * n == q * n - n;
    }
  }

  /** A JavaScript number as far as a timer delay goes: a finite value, an infinity or `NaN`. */
  datatype JsNumber = Finite(value: real) | PosInfinity | NegInfinity | NaN

  /** `(next - now) / rate` in IEEE arithmetic: a zero rate gives an infinity with the sign
      of the numerator, or `NaN` when the numerator is zero too. */
  function Eta(next: real, now: real, rate: real): (e: JsNumber)
    ensures e.Finite? <==> rate != 0.0
    ensures e.Finite? ==> e.value * rate == next - now
    ensures rate == 0.0 ==> (e.NaN? <==> next == now) && (e.PosInfinity? <==> next > now)
    ensures rate > 0.0 && now <= next ==> e.Finite? && e.value >= 0.0
  {
    if rate != 0.0 then Finite((next - now) / rate)
    else if next > now then PosInfinity
    else if next < now then NegInfinity
    else NaN
  }

  /** An index already in range is kept. */
  lemma JsRemInRange(i: int, n: int)
    requires 0 <= i < n
    ensures JsRem(i, n) == i
  {
  }

  /** Reference definition: the first track marked `default`, if any. */
  function FirstDefault(tracks: seq<Track>): (k: Option<nat>)
    ensures k.Some? ==> k.value < |tracks| && tracks[k.value].isDefault
    ensures k.Some? ==> forall j :: 0 <= j < k.value ==> !tracks[j].isDefault
    ensures k.None? <==> forall j :: 0 <= j < |tracks| ==> !tracks[j].isDefault
  {
    if tracks == [] then None
    else if tracks[0].isDefault then Some(0)
    else match FirstDefault(tracks[1..])
      case None => None
      case Some(k) => Some(k + 1)
  }

  /** The track index `set_subtitles_track_default` asks for: the saved one, else the first
      default track, else 0. */
  function DefaultChoice(tracks: seq<Track>, saved: Option<int>): int
  {
    if saved.Some? then saved.value
    else if FirstDefault(tracks).Some? then FirstDefault(tracks).value
    else 0
  }

  class Context {
    /** The parsed cues, or `null` when subtitles are off or not loaded yet. */
    var subtitles: Option<seq<Cue>>
    /** The subtitle tracks of the video, or `null` before they are looked up. */
    var tracks: Option<seq<Track>>
    var currentTrackIndex: int
    /** The delay, in seconds, the armed `update_loop` timer was given, or `None` when none is armed. */
    var loopTimer: Option<JsNumber>
    /** The markup of the subtitle element. */
    var shown: string
    /** The media element's clock, state and speed. */
    var currentTime: real
    var paused: bool
    var playbackRate: real
    /** `localStorage`, as far as track choices go. */
    var storage: map<string, int>
    /** The subtitle files requested so far, oldest first. */
    var requests: seq<string>
    /** `location.pathname` of the page. */
    const pathname: string

    /** Cues only ever come from the parser, which sorts them. */
    predicate Valid()
      reads this
    {
      subtitles.Some? ==> SortedByStart(subtitles.value)
    }

    /** The `localStorage` key of the page's track choice. */
    function TrackKey(): string
    {
      "track-" + pathname
    }

    /** `create_subtitle_context`: no tracks, track 0, no cues, nothing shown or armed. */
    constructor(pathname: string, currentTime: real, paused: bool, playbackRate: real, storage: map<string, int>)
      ensures this.pathname == pathname && this.currentTime == currentTime
      ensures this.paused == paused && this.playbackRate == playbackRate && this.storage == storage
      ensures subtitles.None? && tracks.None? && currentTrackIndex == 0
      ensures loopTimer.None? && shown == "" && requests == []
      ensures Valid()
    {
      this.pathname := pathname;
      this.currentTime := currentTime;
      this.paused := paused;
      this.playbackRate := playbackRate;
      this.storage := storage;
      subtitles := None;
      tracks := None;
      currentTrackIndex := 0;
      loopTimer := None;
      shown := "";
      requests := [];
    }

    /** `context.tracks = tracks`: the tracks found on the video element. */
    method AttachTracks(found: seq<Track>)
      modifies this`tracks
      ensures tracks == Some(found)
    {
      tracks := Some(found);
    }

    /** `update_subtitle`: shows the current cue's text (or nothing) and returns when the
        display changes next; throws on an empty cue list. */
    method UpdateSubtitle() returns (r: Result<Option<real>>)
      requires Valid()
      modifies this`shown
      ensures var l := Lookup(subtitles, currentTime);
              && (l.Failure? ==> r == Failure(l.error) && shown == old(shown))
              && (l.Success? ==> r == Success(NextChange(l.value)) && shown == ShownText(l.value))
      ensures r.Success? && r.value.Some? ==> currentTime <= r.value.value
    {
      var t := GetCurrentSubtitle(subtitles, currentTime);
      if t.Failure? {
        return Failure(t.error);
      }
      if subtitles.Some? {
        LocateNeighbours(subtitles.value, currentTime);
      }
      var triple := t.value;
      if triple.current.Some? {
        shown := triple.current.value.text;
        return Success(Some(triple.current.value.stop));
      }
      shown := "";
      if triple.next.Some? {
        return Success(Some(triple.next.value.start));
      }
      return Success(None);
    }

    /** `update_loop`: cancels the armed timer, updates the display, and unless the video is
        paused or nothing changes any more arms a timer for the next change; the delay is
        not clamped, and a playing video at rate 0 arms `Infinity` (or `NaN` at a change). */
    method UpdateLoop() returns (o: Outcome)
      requires Valid()
      modifies this`shown, this`loopTimer
      ensures var l := Lookup(subtitles, currentTime);
              && (l.Failure? ==> o == Fail(l.error) && loopTimer.None? && shown == old(shown))
              && (l.Success? ==>
                    && o == Pass && shown == ShownText(l.value)
                    && loopTimer == (if paused || NextChange(l.value).None? then None
                                     else Some(Eta(NextChange(l.value).value, currentTime, playbackRate))))
      ensures playbackRate > 0.0 && loopTimer.Some? ==> loopTimer.value.Finite? && loopTimer.value.value >= 0.0
      ensures playbackRate == 0.0 && loopTimer.Some? ==> loopTimer.value.PosInfinity? || loopTimer.value.NaN?
    {
      loopTimer := None;
      var next := UpdateSubtitle();
      if next.Failure? {
        return Fail(next.error);
      }
      if paused || next.value.None? {
        return Pass;
      }
      loopTimer := Some(Eta(next.value.value, currentTime, playbackRate));
      return Pass;
    }

    /** What selecting track `trackIndex` did, from the state before to the state after. */
    twostate predicate Selected(trackIndex: int, o: Outcome)
      reads this
    {
      if tracks.None? || tracks.value == [] then
        o == Fail(TypeError) && currentTrackIndex == old(currentTrackIndex)
          && storage == old(storage) && requests == old(requests)
      else
        var k := JsRem(trackIndex, |tracks.value|);
        && currentTrackIndex == k
        && storage == old(storage)[TrackKey() := k]
        && (k < 0 ==> o == Fail(TypeError) && requests == old(requests))
        && (k >= 0 ==> o == Pass && requests == old(requests) + [tracks.value[k].src])
    }

    /** `set_subtitles_track`, selection step: the index is reduced modulo the number of
        tracks, stored as the current index and in `localStorage`, and the track's file is
        requested. A negative index reads a missing track. */
    method SetSubtitlesTrack(trackIndex: int) returns (o: Outcome)
      modifies this`currentTrackIndex, this`storage, this`requests
      ensures Selected(trackIndex, o)
    {
      if tracks.None? || tracks.value == [] {
        return Fail(TypeError);
      }
      var k := JsRem(trackIndex, |tracks.value|);
      currentTrackIndex := k;
      storage := storage[TrackKey() := k];
      if k < 0 {
        return Fail(TypeError);
      }
      requests := requests + [tracks.value[k].src];
      return Pass;
    }

    /** `set_subtitles_track`, completion step for `filename`: any status but 200 or 0 is
        ignored; otherwise the body is parsed (a parse error leaves the cues as they were),
        the cues replace the old ones whichever request this was, and the display is
        updated. The timer is left alone. */
    method CompleteLoad(filename: string, status: int, body: string) returns (o: Outcome)
      requires Valid()
      modifies this`subtitles, this`shown
      ensures Valid()
      ensures status != 200 && status != 0 ==> o == Pass && subtitles == old(subtitles) && shown == old(shown)
      ensures status == 200 || status == 0 ==>
                var p := ParseSubtitles(body, filename);
                && (p.Failure? ==> o == Fail(p.error) && subtitles == old(subtitles) && shown == old(shown))
                && (p.Success? ==> subtitles == Some(p.value))
      ensures (status == 200 || status == 0) && ParseSubtitles(body, filename).Success? ==>
                var l := Lookup(subtitles, currentTime);
                && (l.Failure? ==> o == Fail(l.error) && shown == old(shown))
                && (l.Success? ==> o == Pass && shown == ShownText(l.value))
    {
      if status != 200 && status != 0 {
        return Pass;
      }
      var parsed := ParseSubtitles(body, filename);
      if parsed.Failure? {
        return Fail(parsed.error);
      }
      subtitles := Some(parsed.value);
      var next := UpdateSubtitle();
      if next.Failure? {
        return Fail(next.error);
      }
      return Pass;
    }

    /** `disable_subtitles`: no cues, nothing shown, and index -1 so that cycling selects
        track 0 next. The timer is left alone. */
    method DisableSubtitles()
      requires Valid()
      modifies this`subtitles, this`shown, this`currentTrackIndex
      ensures Valid()
      ensures subtitles.None? && shown == "" && currentTrackIndex == -1
    {
      subtitles := None;
      var _ := UpdateSubtitle();
      currentTrackIndex := -1;
    }

    /** `cycle_subtitles_track`: selects the track after the current one. */
    method CycleSubtitlesTrack() returns (o: Outcome)
      modifies this`currentTrackIndex, this`storage, this`requests
      ensures Selected(old(currentTrackIndex) + 1, o)
    {
      o := SetSubtitlesTrack(currentTrackIndex + 1);
    }

    /** `set_subtitles_track_default`: nothing without tracks; otherwise the saved index,
        else the first default track, else track 0. */
    method SetSubtitlesTrackDefault() returns (o: Outcome)
      modifies this`currentTrackIndex, this`storage, this`requests
      ensures tracks.None? ==> o == Pass && unchanged(this)
      ensures tracks.Some? ==>
                Selected(DefaultChoice(tracks.value, if TrackKey() in old(storage) then Some(old(storage)[TrackKey()]) else None), o)
    {
      if tracks.None? {
        return Pass;
      }
      if TrackKey() in storage {
        o := SetSubtitlesTrack(storage[TrackKey()]);
        return;
      }
      var all := tracks.value;
      var i := 0;
      while i < |all|
        invariant 0 <= i <= |all|
        invariant forall j :: 0 <= j < i ==> !all[j].isDefault
      {
        if all[i].isDefault {
          o := SetSubtitlesTrack(i);
          return;
        }
        i := i + 1;
      }
      o := SetSubtitlesTrack(0);
    }

    /** `jump_to_previous_subtitle`: to just after the start of the previous cue, or to 0
        when there is none; nothing happens without cues. */
    method JumpToPreviousSubtitle() returns (o: Outcome)
      requires Valid()
      modifies this`currentTime, this`shown
      ensures subtitles.None? ==> o == Pass && currentTime == old(currentTime) && shown == old(shown)
      ensures subtitles == Some([]) ==> o == Fail(TypeError) && currentTime == old(currentTime) && shown == old(shown)
      ensures subtitles.Some? && subtitles.value != [] ==>
                var t := Locate(subtitles.value, old(currentTime));
                && o == Pass
                && currentTime == (if t.previous.Some? then t.previous.value.start + Epsilon else 0.0)
                && (t.previous.Some? ==> currentTime <= old(currentTime) + Epsilon)
                && shown == ShownText(Locate(subtitles.value, currentTime))
    {
      if subtitles.None? {
        return Pass;
      }
      var t := GetCurrentSubtitle(subtitles, currentTime);
      if t.Failure? {
        return Fail(t.error);
      }
      LocateNeighbours(subtitles.value, currentTime);
      if t.value.previous.Some? {
        currentTime := t.value.previous.value.start + Epsilon;
      } else {
        currentTime := 0.0;
      }
      var _ := UpdateSubtitle();
      return Pass;
    }

    /** `jump_to_next_subtitle`: to just after the start of the next cue; nothing happens
        without cues or without a next cue. */
    method JumpToNextSubtitle() returns (o: Outcome)
      requires Valid()
      modifies this`currentTime, this`shown
      ensures subtitles.None? ==> o == Pass && currentTime == old(currentTime) && shown == old(shown)
      ensures subtitles == Some([]) ==> o == Fail(TypeError) && currentTime == old(currentTime) && shown == old(shown)
      ensures subtitles.Some? && subtitles.value != [] ==>
                var t := Locate(subtitles.value, old(currentTime));
                && o == Pass
                && (t.next.None? ==> currentTime == old(currentTime) && shown == old(shown))
                && (t.next.Some? ==> currentTime == t.next.value.start + Epsilon
                                     && old(currentTime) < currentTime
                                     && shown == ShownText(Locate(subtitles.value, currentTime)))
    {
      if subtitles.None? {
        return Pass;
      }
      var t := GetCurrentSubtitle(subtitles, currentTime);
      if t.Failure? {
        return Fail(t.error);
      }
      LocateNeighbours(subtitles.value, currentTime);
      if t.value.next.Some? {
        currentTime := t.value.next.value.start + Epsilon;
        var _ := UpdateSubtitle();
      }
      return Pass;
    }

    /** Turning subtitles off and cycling selects the first track. */
    method DisableThenCycle() returns (o: Outcome)
      requires Valid() && tracks.Some? && tracks.value != []
      modifies this`subtitles, this`shown, this`currentTrackIndex, this`storage, this`requests
      ensures o == Pass && currentTrackIndex == 0 && subtitles.None?
      ensures requests == old(requests) + [tracks.value[0].src]
    {
      DisableSubtitles();
      o := CycleSubtitlesTrack();
    }

    /** Nothing ties a completed download to the latest selection: when the file of an
        earlier selection arrives last, its cues are the ones kept while the index names
        the later track. */
    method LateCompletionWins(first: nat, second: nat, firstBody: string, secondBody: string) returns (o: Outcome)
      requires Valid() && tracks.Some? && first < second < |tracks.value|
      requires ParseSubtitles(firstBody, tracks.value[first].src).Success?
      modifies this`subtitles, this`shown, this`currentTrackIndex, this`storage, this`requests
      ensures currentTrackIndex == second
      ensures subtitles == Some(ParseSubtitles(firstBody, tracks.value[first].src).value)
    {
      var all := tracks.value;
      JsRemInRange(first, |all|);
      JsRemInRange(second, |all|);
      var _ := SetSubtitlesTrack(first);
      var _ := SetSubtitlesTrack(second);
      var _ := CompleteLoad(all[second].src, 200, secondBody);
      o := CompleteLoad(all[first].src, 200, firstBody);
    }
  }
}
