/** The persistent player bar: its clock display, the lock-screen seek and
    position computations, waveform seeking, and how it drives the audio
    manager and the session. The WaveSurfer instance is reduced to whether it
    exists; timers are left to the caller, who invokes the handlers. */
module PlayerBar {
  import opened Common
  import opened Strings
  import opened PlayerContext
  import opened AudioGraph

  // ----- clock -----

  /** `${Math.floor(s / 60)}:${Math.floor(s % 60).toString().padStart(2, "0")}`. */
  function FormatTime(seconds: real): (r: string)
    ensures |r| >= 4
  {
    var mins := Floor(seconds / 60.0);
    var secs := Floor(JsRemReal(seconds, 60.0));
    IntToStr(mins) + ":" + PadStart(IntToStr(secs), 2, '0')
  }

  /** For a non-negative time, minutes and seconds exactly recompose the whole seconds. */
  lemma ClockSplit(seconds: real)
    requires seconds >= 0.0
    ensures Floor(seconds / 60.0) >= 0
    ensures 0 <= Floor(JsRemReal(seconds, 60.0)) < 60
    ensures 60 * Floor(seconds / 60.0) + Floor(JsRemReal(seconds, 60.0)) == Floor(seconds)
  {
    var m := Floor(seconds / 60.0);
    assert Trunc(seconds / 60.0) == m;
    var rem := JsRemReal(seconds, 60.0);
    assert rem == seconds - 60.0 * m as real;
    assert 0.0 <= rem < 60.0;
    var f := Floor(rem);
    assert (f + 60 * m) as real <= seconds < (f + 60 * m) as real + 1.0;
  }

  /** The two-digit seconds field and its value. */
  lemma TwoDigits(secs: nat)
    requires secs < 60
    ensures |PadStart(IntToStr(secs), 2, '0')| == 2
    ensures AllDigits(PadStart(IntToStr(secs), 2, '0'))
    ensures ParseNat(PadStart(IntToStr(secs), 2, '0')) == secs
  {
    var d := NatToStr(secs);
    ParseNatToStr(secs);
    if secs < 10 {
      assert PadStart(d, 2, '0') == "0" + d;
      ParseNatLeadingZero(d);
    } else {
      assert PadStart(d, 2, '0') == d;
    }
  }

  /** `r` is "m:ss": digits, a colon and two digits, reading back as `m` and `secs`. */
  predicate ReadsAsClock(r: string, m: int, secs: int) {
    |r| >= 4 && r[|r| - 3] == ':' && AllDigits(r[..|r| - 3]) && AllDigits(r[|r| - 2..])
    && ParseNat(r[..|r| - 3]) == m && ParseNat(r[|r| - 2..]) == secs
  }

  /** Minutes, a colon and the padded seconds read back as the two numbers. */
  lemma ClockTextReadsBack(m: nat, secs: nat)
    requires secs < 60
    ensures ReadsAsClock(IntToStr(m) + ":" + PadStart(IntToStr(secs), 2, '0'), m, secs)
  {
    TwoDigits(secs);
    ParseNatToStr(m);
    var a := NatToStr(m);
    var b := PadStart(IntToStr(secs), 2, '0');
    assert IntToStr(m) == a;
    JoinedClock(a, b, m, secs);
  }

  /** Digits, a colon and two more digits read back as the two values. */
  lemma JoinedClock(a: string, b: string, m: int, secs: int)
    requires |a| >= 1 && AllDigits(a) && ParseNat(a) == m
    requires |b| == 2 && AllDigits(b) && ParseNat(b) == secs
    ensures ReadsAsClock(a + ":" + b, m, secs)
  {
    var r := a + ":" + b;
    assert |r| == |a| + 3 && r[|r| - 3] == ':';
    assert r[..|r| - 3] == a;
    assert r[|r| - 2..] == b;
  }

  /** Reading the display back: the text before ':' is the minutes and the
      two digits after it the seconds (which `ClockSplit` recomposes). */
  lemma FormatTimeRoundTrip(seconds: real)
    requires seconds >= 0.0
    ensures ReadsAsClock(FormatTime(seconds), Floor(seconds / 60.0), Floor(JsRemReal(seconds, 60.0)))
  {
    ClockSplit(seconds);
    var m := Floor(seconds / 60.0);
    var secs := Floor(JsRemReal(seconds, 60.0));
    ClockTextReadsBack(m, secs);
    assert FormatTime(seconds) == IntToStr(m) + ":" + PadStart(IntToStr(secs), 2, '0');
  }

  // ----- lock-screen seeking -----

  /** `details.seekOffset || 10`: a missing or zero offset means ten seconds. */
  function SeekOffset(offset: Option<real>): (o: real)
    ensures o != 0.0
    ensures offset.None? || offset.value == 0.0 ==> o == 10.0
  {
    if offset.Some? && offset.value != 0.0 then offset.value else 10.0
  }

  /** Where "seekbackward" moves the audio. */
  function SeekBackwardTime(currentTime: real, offset: Option<real>): (t: real)
    ensures t >= 0.0 && t >= currentTime - SeekOffset(offset)
    ensures t == 0.0 || t == currentTime - SeekOffset(offset)
    ensures SeekOffset(offset) > 0.0 && currentTime >= 0.0 ==> t <= currentTime
  {
    MaxReal(0.0, currentTime - SeekOffset(offset))
  }

  /** Where "seekforward" moves the audio: never past the known duration. */
  function SeekForwardTime(currentTime: real, duration: real, offset: Option<real>): (t: real)
    ensures t <= duration && t <= currentTime + SeekOffset(offset)
    ensures t == duration || t == currentTime + SeekOffset(offset)
  {
    MinReal(duration, currentTime + SeekOffset(offset))
  }

  /** Seeking forward and then back by the same offset returns to the start,
      unless the forward seek was stopped by the end of the track. */
  lemma SeekBackUndoesForward(currentTime: real, duration: real, offset: Option<real>)
    requires currentTime >= 0.0 && SeekOffset(offset) > 0.0
    requires currentTime + SeekOffset(offset) <= duration
    ensures SeekBackwardTime(SeekForwardTime(currentTime, duration, offset), offset) == currentTime
  {
  }

  /** The audio position and, when the waveform exists and the duration is
      positive, the waveform progress a lock-screen seek sets. */
  datatype Seek = Seek(time: real, waveformProgress: Option<real>)

  function WaveformProgress(time: real, duration: real, hasWaveform: bool): (p: Option<real>)
    ensures p.Some? <==> hasWaveform && duration > 0.0
  {
    if hasWaveform && duration > 0.0 then Some(time / duration) else None
  }

  /** The "seekbackward" handler; nothing without a manager or without details. */
  function SeekBackward(hasManager: bool, details: Option<Option<real>>, currentTime: real,
                        duration: real, hasWaveform: bool): (s: Option<Seek>)
    ensures s.Some? <==> hasManager && details.Some?
    ensures s.Some? ==> s.value.time == SeekBackwardTime(currentTime, details.value)
    ensures s.Some? ==> s.value.waveformProgress == WaveformProgress(s.value.time, duration, hasWaveform)
    ensures s.Some? ==> s.value.time >= 0.0
    ensures s.Some? && hasWaveform && duration > 0.0 && s.value.time <= duration ==>
      s.value.waveformProgress.Some? && 0.0 <= s.value.waveformProgress.value <= 1.0
  {
    if !hasManager || details.None? then None
    else
      var t := SeekBackwardTime(currentTime, details.value);
      DivUnit(t, duration);
      Some(Seek(t, WaveformProgress(t, duration, hasWaveform)))
  }

  /** The "seekforward" handler; nothing without a manager or without details. */
  function SeekForward(hasManager: bool, details: Option<Option<real>>, currentTime: real,
                       duration: real, hasWaveform: bool): (s: Option<Seek>)
    ensures s.Some? <==> hasManager && details.Some?
    ensures s.Some? ==> s.value.time == SeekForwardTime(currentTime, duration, details.value)
    ensures s.Some? ==> s.value.waveformProgress == WaveformProgress(s.value.time, duration, hasWaveform)
    ensures s.Some? ==> s.value.time <= duration
    ensures s.Some? && hasWaveform && duration > 0.0 && s.value.time >= 0.0 ==>
      s.value.waveformProgress.Some? && 0.0 <= s.value.waveformProgress.value <= 1.0
  {
    if !hasManager || details.None? then None
    else
      var t := SeekForwardTime(currentTime, duration, details.value);
      DivUnit(t, duration);
      Some(Seek(t, WaveformProgress(t, duration, hasWaveform)))
  }

  lemma DivUnit(p: real, m: real)
    ensures 0.0 <= p <= m && m > 0.0 ==> 0.0 <= p / m <= 1.0
  {
  }

  /** The lock-screen position: published only for a positive, finite duration
      and a finite time, clamped into [0, duration]. */
  function PositionState(hasManager: bool, duration: real, durationFinite: bool,
                         currentTime: real, currentTimeFinite: bool): (p: Option<(real, real)>)
    ensures p.Some? <==> hasManager && duration > 0.0 && durationFinite && currentTimeFinite
    ensures p.Some? ==> p.value.0 == duration && 0.0 <= p.value.1 <= duration
    ensures p.Some? && 0.0 <= currentTime <= duration ==> p.value.1 == currentTime
  {
    if hasManager && duration > 0.0 && durationFinite && currentTimeFinite then
      Some((duration, MaxReal(0.0, MinReal(currentTime, duration))))
    else None
  }

  // ----- waveform seeking -----

  /** The waveform's "interaction" handler: the audio time for a click at `progress`. */
  function InteractionTime(progress: real, duration: real): (t: Option<real>)
    ensures t.Some? <==> duration > 0.0
    ensures t.Some? && 0.0 <= progress <= 1.0 ==> 0.0 <= t.value <= duration
  {
    if duration > 0.0 then Some(progress * duration)
    else None
  }

  /** The periodic sync: the waveform progress for the audio's position. */
  function SyncProgress(currentTime: real, duration: real): (p: Option<real>)
    ensures p.Some? <==> duration > 0.0
  {
    if duration > 0.0 then Some(currentTime / duration) else None
  }

  /** Clicking the waveform where the sync put its cursor seeks to the current time. */
  lemma SyncThenSeek(currentTime: real, duration: real)
    requires duration > 0.0
    ensures InteractionTime(SyncProgress(currentTime, duration).value, duration) == Some(currentTime)
  {
    var p := SyncProgress(currentTime, duration).value;
    DivMul(currentTime, duration);
    assert p * duration == currentTime;
    InteractionAt(p, duration);
  }

  lemma InteractionAt(p: real, d: real)
    requires d > 0.0
    ensures InteractionTime(p, d) == Some(p * d)
  {
  }

  lemma DivMul(x: real, d: real)
    requires d > 0.0
    ensures (x / d) * d == x
  {
  }

  // ----- the component -----

  /** The lock-screen actions the bar registers. */
  datatype MediaAction = PlayAction | PauseAction | NextTrackAction | PreviousTrackAction

  class Bar {
    var manager: AudioManager?
    var hasWaveform: bool

    ghost predicate Valid()
      reads this, manager
    {
      manager != null ==> manager.Valid()
    }

    constructor ()
      ensures Valid() && manager == null && !hasWaveform
    {
      manager, hasWaveform := null, false;
    }

    /** No current track: clean up and drop the manager, destroy the waveform. */
    method TearDown()
      requires Valid()
      modifies this, manager
      ensures Valid() && manager == null && !hasWaveform
      ensures old(manager) != null ==> old(manager).Snapshot() == Uninitialized()
    {
      if manager != null {
        manager.Cleanup();
        CleanupOfWellFormed(manager.Snapshot());
        manager := null;
      }
      hasWaveform := false;
    }

    /** `isPlaying` changed: play (the browser may refuse) or pause the manager. */
    method PlayingChanged(isPlaying: bool, allowed: bool) returns (sync: Option<real>)
      requires Valid()
      modifies manager
      ensures Valid()
      ensures manager == null ==> sync.None?
      ensures manager != null && isPlaying && allowed && old(manager.element).Some? ==>
        manager.IsPlaying()
      ensures manager != null && !isPlaying && old(manager.element).Some? ==> !manager.IsPlaying()
      ensures manager != null && isPlaying && hasWaveform ==>
        sync == SyncProgress(manager.GetCurrentTime(), manager.GetDuration())
      ensures !isPlaying || !hasWaveform ==> sync.None?
    {
      sync := None;
      if manager == null {
        return;
      }
      if isPlaying {
        var _ := manager.Play(allowed);
        if hasWaveform {
          sync := SyncProgress(manager.GetCurrentTime(), manager.GetDuration());
        }
      } else {
        manager.Pause();
      }
    }

    /** A click on the waveform seeks the audio when its duration is positive. */
    method Interaction(progress: real)
      requires Valid()
      modifies manager
      ensures Valid()
      ensures manager != null && old(manager.GetDuration()) > 0.0 ==>
        manager.GetCurrentTime() == progress * old(manager.GetDuration())
      ensures manager != null && old(manager.GetDuration()) <= 0.0 ==>
        manager.Snapshot() == old(manager.Snapshot())
    {
      if manager == null {
        return;
      }
      var d := manager.GetDuration();
      var t := InteractionTime(progress, d);
      if t.Some? {
        manager.SeekTo(t.value);
      }
    }

    /** A lock-screen seek: move the audio and report the waveform progress. */
    method MediaSeek(forward: bool, details: Option<Option<real>>, duration: real) returns (w: Option<real>)
      requires Valid()
      modifies manager
      ensures Valid()
      ensures var s := if forward
          then SeekForward(old(manager) != null, details, if manager == null then 0.0 else old(manager.GetCurrentTime()), duration, hasWaveform)
          else SeekBackward(old(manager) != null, details, if manager == null then 0.0 else old(manager.GetCurrentTime()), duration, hasWaveform);
        (s.None? ==> w.None?)
        && (s.Some? ==>
              (w == s.value.waveformProgress
               && (old(manager.element).Some? ==> manager.GetCurrentTime() == s.value.time)))
    {
      var s: Option<Seek>;
      var now := if manager == null then 0.0 else manager.GetCurrentTime();
      if forward {
        s := SeekForward(manager != null, details, now, duration, hasWaveform);
      } else {
        s := SeekBackward(manager != null, details, now, duration, hasWaveform);
      }
      w := None;
      if s.Some? {
        manager.SeekTo(s.value.time);
        w := s.value.waveformProgress;
      }
    }
  }

  lemma CleanupOfWellFormed(m: Manager)
    requires m == CleanupSpec(m)
    ensures m == Uninitialized()
  {
  }

  /** The audio's "ended" event advances the session. */
  method OnEnded(player: Player)
    requires player.Valid()
    modifies player
    ensures player.Valid() && player.State() == PlayNextSpec(old(player.State()))
  {
    player.PlayNext();
  }

  /** Lock-screen play and pause both toggle; next and previous navigate. */
  method OnMediaAction(action: MediaAction, player: Player)
    requires player.Valid()
    modifies player
    ensures player.Valid()
    ensures action.PlayAction? || action.PauseAction? ==>
      player.State() == old(player.State()).(isPlaying := !old(player.isPlaying))
    ensures action.NextTrackAction? ==> player.State() == PlayNextSpec(old(player.State()))
    ensures action.PreviousTrackAction? ==> player.State() == PlayPrevSpec(old(player.State()))
  {
    match action {
      case PlayAction => player.TogglePlay();
      case PauseAction => player.TogglePlay();
      case NextTrackAction => player.PlayNext();
      case PreviousTrackAction => player.PlayPrev();
    }
  }
}
