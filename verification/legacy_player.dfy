/** The player context of the older copy, subtitles.js: no track list or track index is
    kept, a subtitle file is requested by name, and the previous/next buttons jump to a
    cue's exact start. */
module LegacyPlayer {
  import opened Wrappers
  import opened Cues
  import opened Timeline
  import opened LegacyParser
  import Player

  class LegacyContext {
    var subtitles: Option<seq<Cue>>
    var loopTimer: Option<Player.JsNumber>
    var shown: string
    var currentTime: real
    var paused: bool
    var playbackRate: real
    /** The subtitle files requested so far, oldest first. */
    var requests: seq<string>

    predicate Valid()
      reads this
    {
      subtitles.Some? ==> SortedByStart(subtitles.value)
    }

    /** `create_subtitle_context` of the older copy: no cues, nothing shown or armed. */
    constructor(currentTime: real, paused: bool, playbackRate: real)
      ensures this.currentTime == currentTime && this.paused == paused && this.playbackRate == playbackRate
      ensures subtitles.None? && loopTimer.None? && shown == "" && requests == []
      ensures Valid()
    {
      this.currentTime := currentTime;
      this.paused := paused;
      this.playbackRate := playbackRate;
      subtitles := None;
      loopTimer := None;
      shown := "";
      requests := [];
    }

    /** `update_subtitle`, as in the current copy. */
    method UpdateSubtitle() returns (r: Result<Option<real>>)
      requires Valid()
      modifies this`shown
      ensures var l := Lookup(subtitles, currentTime);
              && (l.Failure? ==> r == Failure(l.error) && shown == old(shown))
              && (l.Success? ==> r == Success(NextChange(l.value)) && shown == ShownText(l.value))
    {
      var t := GetCurrentSubtitle(subtitles, currentTime);
      if t.Failure? {
        return Failure(t.error);
      }
      var triple := t.value;
      if triple.current.Some? {
        shown := triple.current.value.text;
        return Success(Some(triple.current.value.stop));
      }
      shown := "";
      if triple.next.Some? {
        return Success(Some(triple.next.value.start));
      }
      return Success(None);
    }

    /** `update_loop`, as in the current copy, rate 0 included. */
    method UpdateLoop() returns (o: Outcome)
      requires Valid()
      modifies this`shown, this`loopTimer
      ensures var l := Lookup(subtitles, currentTime);
              && (l.Failure? ==> o == Fail(l.error) && loopTimer.None? && shown == old(shown))
              && (l.Success? ==>
                    && o == Pass && shown == ShownText(l.value)
                    && loopTimer == (if paused || NextChange(l.value).None? then None
                                     else Some(Player.Eta(NextChange(l.value).value, currentTime, playbackRate))))
      ensures playbackRate > 0.0 && loopTimer.Some? ==> loopTimer.value.Finite? && loopTimer.value.value >= 0.0
      ensures playbackRate == 0.0 && loopTimer.Some? ==> loopTimer.value.PosInfinity? || loopTimer.value.NaN?
    {
      loopTimer := None;
      var next := UpdateSubtitle();
      if next.Failure? {
        return Fail(next.error);
      }
      if paused || next.value.None? {
        return Pass;
      }
      if subtitles.Some? {
        LocateNeighbours(subtitles.value, currentTime);
      }
      loopTimer := Some(Player.Eta(next.value.value, currentTime, playbackRate));
      return Pass;
    }

    /** `set_subtitles_file`, request step: the file is asked for. */
    method SetSubtitlesFile(filename: string)
      modifies this`requests
      ensures requests == old(requests) + [filename]
    {
      requests := requests + [filename];
    }

    /** `set_subtitles_file`, completion step: any status but 200 or 0 is ignored; otherwise
        the parse result replaces the cues and the display is updated. */
    method CompleteLoad(filename: string, status: int, body: string) returns (o: Outcome)
      requires Valid()
      modifies this`subtitles, this`shown
      ensures Valid()
      ensures status != 200 && status != 0 ==> o == Pass && subtitles == old(subtitles) && shown == old(shown)
      ensures status == 200 || status == 0 ==>
                var p := LegacyParseSubtitles(body, filename);
                && (p.Failure? ==> o == Fail(p.error) && subtitles == old(subtitles) && shown == old(shown))
                && (p.Success? ==> subtitles == Some(p.value))
      ensures (status == 200 || status == 0) && LegacyParseSubtitles(body, filename).Success? ==>
                var l := Lookup(subtitles, currentTime);
                && (l.Failure? ==> o == Fail(l.error) && shown == old(shown))
                && (l.Success? ==> o == Pass && shown == ShownText(l.value))
    {
      if status != 200 && status != 0 {
        return Pass;
      }
      var parsed := LegacyParseSubtitles(body, filename);
      if parsed.Failure? {
        return Fail(parsed.error);
      }
      subtitles := Some(parsed.value);
      var next := UpdateSubtitle();
      if next.Failure? {
        return Fail(next.error);
      }
      return Pass;
    }

    /** The "None" entry of the selector: the cues are dropped and the display cleared. */
    method NoneClicked()
      modifies this`subtitles, this`shown
      ensures subtitles.None? && shown == ""
      ensures Valid()
    {
      subtitles := None;
      var next := UpdateSubtitle();
      assert next == Success(None);
    }

    /** The "Previous subtitle" click: to the exact start of the previous cue, or to 0. */
    method PreviousClicked() returns (o: Outcome)
      requires Valid()
      modifies this`currentTime, this`shown
      ensures subtitles.None? ==> o == Pass && currentTime == old(currentTime) && shown == old(shown)
      ensures subtitles == Some([]) ==> o == Fail(TypeError) && currentTime == old(currentTime) && shown == old(shown)
      ensures subtitles.Some? && subtitles.value != [] ==>
                var t := Locate(subtitles.value, old(currentTime));
                && o == Pass
                && currentTime == (if t.previous.Some? then t.previous.value.start else 0.0)
                && (t.previous.Some? ==> currentTime <= old(currentTime))
                && shown == ShownText(Locate(subtitles.value, currentTime))
    {
      if subtitles.None? {
        return Pass;
      }
      var t := GetCurrentSubtitle(subtitles, currentTime);
      if t.Failure? {
        return Fail(t.error);
      }
      LocateNeighbours(subtitles.value, currentTime);
      if t.value.previous.Some? {
        currentTime := t.value.previous.value.start;
      } else {
        currentTime := 0.0;
      }
      var _ := UpdateSubtitle();
      return Pass;
    }

    /** The "Next subtitle" click: to the exact start of the next cue, if there is one. */
    method NextClicked() returns (o: Outcome)
      requires Valid()
      modifies this`currentTime, this`shown
      ensures subtitles.None? ==> o == Pass && currentTime == old(currentTime) && shown == old(shown)
      ensures subtitles == Some([]) ==> o == Fail(TypeError) && currentTime == old(currentTime) && shown == old(shown)
      ensures subtitles.Some? && subtitles.value != [] ==>
                var t := Locate(subtitles.value, old(currentTime));
                && o == Pass
                && (t.next.None? ==> currentTime == old(currentTime) && shown == old(shown))
                && (t.next.Some? ==> currentTime == t.next.value.start
                                     && old(currentTime) < currentTime
                                     && shown == ShownText(Locate(subtitles.value, currentTime)))
    {
      if subtitles.None? {
        return Pass;
      }
      var t := GetCurrentSubtitle(subtitles, currentTime);
      if t.Failure? {
        return Fail(t.error);
      }
      LocateNeighbours(subtitles.value, currentTime);
      if t.value.next.Some? {
        currentTime := t.value.next.value.start;
        var _ := UpdateSubtitle();
      }
      return Pass;
    }

    /** `set_default_subtitles_file`: the first `default` track, else the first track, is
        requested; nothing happens without tracks. */
    method SetDefaultSubtitlesFile(tracks: seq<Player.Track>)
      modifies this`requests
      ensures tracks == [] ==> requests == old(requests)
      ensures tracks != [] ==>
                var k := if Player.FirstDefault(tracks).Some? then Player.FirstDefault(tracks).value else 0;
                requests == old(requests) + [tracks[k].src]
    {
      var chosen := Player.FirstDefault(tracks);
      if chosen.None? {
        if tracks == [] {
          return;
        }
        chosen := Some(0);
      }
      SetSubtitlesFile(tracks[chosen.value].src);
    }
  }
}
