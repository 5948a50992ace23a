/**
 * The voice recorder hook: a recording goes from "initial" to "recording" to
 * "review", counting its seconds up to a limit of 60, and a recording under
 * review can be played back, paused, discarded or recorded again. The audio
 * device's calls are parameters: whether permission was granted, whether a
 * call succeeded, and the file address the recording was saved to.
 */
module VoiceRecorder {
  import opened Common

  /** The longest recording, in seconds. */
  const MaxRecordingDuration: nat := 60

  datatype RecordingState = Idle | Recording | Review

  /**
   * The hook's state: its four state variables, whether a recording and a
   * sound object are held, and whether the one-second timer is running.
   */
  datatype Recorder = Recorder(
    recordingState: RecordingState,
    recordingDuration: nat,
    hasRecording: bool,
    audioUri: Option<string>,
    hasSound: bool,
    isPlaying: bool,
    timerRunning: bool)

  const Initial := Recorder(Idle, 0, false, None, false, false, false)

  /** A recording is held exactly while recording, and playing needs a sound. */
  predicate Consistent(r: Recorder)
  {
    (r.hasRecording <==> r.recordingState == Recording) && (r.isPlaying ==> r.hasSound)
  }

  /**
   * startRecording: without permission, or when the device fails to start,
   * nothing changes; otherwise a recording is held, the count restarts from
   * zero and the timer runs.
   */
  function Start(r: Recorder, granted: bool, started: bool): (s: Recorder)
    ensures !granted || !started ==> s == r
    ensures granted && started ==>
      s.recordingState == Recording && s.recordingDuration == 0 && s.hasRecording && s.timerRunning &&
      s.audioUri == r.audioUri && s.hasSound == r.hasSound && s.isPlaying == r.isPlaying
    ensures Consistent(r) ==> Consistent(s)
  {
    if !granted || !started then r
    else r.(hasRecording := true, recordingState := Recording, recordingDuration := 0, timerRunning := true)
  }

  /**
   * stopRecording: nothing without a held recording, or when the device fails
   * to stop; otherwise the recording is released, its file address kept and
   * the recorder goes to review. The timer is not cleared here.
   */
  function Stop(r: Recorder, uri: Option<string>, stopped: bool): (s: Recorder)
    ensures !r.hasRecording || !stopped ==> s == r
    ensures r.hasRecording && stopped ==>
      s == r.(hasRecording := false, audioUri := uri, recordingState := Review)
    ensures Consistent(r) ==> Consistent(s)
  {
    if !r.hasRecording || !stopped then r
    else r.(hasRecording := false, audioUri := uri, recordingState := Review)
  }

  /**
   * cancelRecording: a held recording is stopped and unloaded first; when
   * that call fails (`unloaded` false) the error escapes before any state is
   * set, so nothing changes. Otherwise the recorder is back to "initial" with
   * no recording, no count and no file.
   */
  function Cancel(r: Recorder, unloaded: bool): (s: Recorder)
    ensures r.hasRecording && !unloaded ==> s == r
    ensures !r.hasRecording || unloaded ==>
      s.recordingState == Idle && s.recordingDuration == 0 && !s.hasRecording && s.audioUri.None? &&
      s.hasSound == r.hasSound && s.isPlaying == r.isPlaying && s.timerRunning == r.timerRunning
    ensures Consistent(r) ==> Consistent(s)
  {
    if r.hasRecording && !unloaded then r
    else r.(hasRecording := false, recordingState := Idle, recordingDuration := 0, audioUri := None)
  }

  /**
   * reRecord: a held sound is unloaded first; when that call fails
   * (`unloaded` false) nothing changes. Otherwise the sound is released and
   * the recorder is back to "initial", not playing.
   */
  function ReRecord(r: Recorder, unloaded: bool): (s: Recorder)
    ensures r.hasSound && !unloaded ==> s == r
    ensures !r.hasSound || unloaded ==>
      s.recordingState == Idle && s.recordingDuration == 0 && s.audioUri.None? && !s.hasSound && !s.isPlaying &&
      s.hasRecording == r.hasRecording && s.timerRunning == r.timerRunning
    ensures Consistent(r) && r.recordingState != Recording ==> Consistent(s)
  {
    if r.hasSound && !unloaded then r
    else r.(hasSound := false, recordingState := Idle, recordingDuration := 0, audioUri := None, isPlaying := false)
  }

  /** A file address that counts as a file: present and not empty. */
  predicate HasFile(r: Recorder)
  {
    r.audioUri.Some? && r.audioUri.value != ""
  }

  /**
   * togglePlayback: nothing without a file, an empty address counting as
   * none; with a sound it pauses or plays; without one a sound is made from
   * the file and starts playing. A failed call (`ok` false) changes nothing.
   */
  function TogglePlayback(r: Recorder, ok: bool): (s: Recorder)
    ensures !HasFile(r) || !ok ==> s == r
    ensures HasFile(r) && ok && r.hasSound ==> s == r.(isPlaying := !r.isPlaying)
    ensures HasFile(r) && ok && !r.hasSound ==> s == r.(hasSound := true, isPlaying := true)
    ensures Consistent(r) ==> Consistent(s)
  {
    if !HasFile(r) || !ok then r
    else if r.hasSound then r.(isPlaying := !r.isPlaying)
    else r.(hasSound := true, isPlaying := true)
  }

  /** The sound reports that it has played to the end. */
  function PlaybackFinished(r: Recorder): (s: Recorder)
    ensures !s.isPlaying && s == r.(isPlaying := false)
    ensures Consistent(r) ==> Consistent(s)
  {
    r.(isPlaying := false)
  }

  /** Pausing what was playing, or playing what was paused, twice is where it started. */
  lemma ToggleTwice(r: Recorder)
    requires HasFile(r) && r.hasSound
    ensures TogglePlayback(TogglePlayback(r, true), true) == r
  {
  }

  /**
   * One second of the timer as written: the count goes up, and at the limit
   * the timer is cleared and the stop it calls is the one of the render that
   * started the recording, which held no recording then; so it stops nothing.
   */
  function TickAsWritten(r: Recorder): (s: Recorder)
    ensures !r.timerRunning ==> s == r
    ensures r.timerRunning ==> s.recordingDuration == r.recordingDuration + 1
    ensures r.timerRunning ==>
      s == r.(recordingDuration := r.recordingDuration + 1, timerRunning := r.recordingDuration + 1 < MaxRecordingDuration)
  {
    if !r.timerRunning then r
    else
      var next := r.recordingDuration + 1;
      var staleStop := Stop(r.(hasRecording := false), None, true);
      assert staleStop == r.(hasRecording := false);
      r.(recordingDuration := next, timerRunning := next < MaxRecordingDuration)
  }

  /** One second of the timer as intended: at the limit the recording held now is stopped. */
  function Tick(r: Recorder, uri: Option<string>): (s: Recorder)
    ensures !r.timerRunning ==> s == r
    ensures r.timerRunning ==> s.recordingDuration == r.recordingDuration + 1
    ensures r.timerRunning && r.recordingDuration + 1 < MaxRecordingDuration ==>
      s == r.(recordingDuration := r.recordingDuration + 1)
    ensures r.timerRunning && r.recordingDuration + 1 >= MaxRecordingDuration ==>
      !s.timerRunning && !s.hasRecording && (r.hasRecording ==> s.recordingState == Review && s.audioUri == uri)
    ensures Consistent(r) ==> Consistent(s)
  {
    if !r.timerRunning then r
    else
      var next := r.recordingDuration + 1;
      var counted := r.(recordingDuration := next);
      if next >= MaxRecordingDuration then Stop(counted.(timerRunning := false), uri, true) else counted
  }

  /** n seconds of the timer, as written and as intended. */
  function TicksAsWritten(r: Recorder, n: nat): Recorder
  {
    if n == 0 then r else TickAsWritten(TicksAsWritten(r, n - 1))
  }

  function Ticks(r: Recorder, n: nat, uri: Option<string>): Recorder
  {
    if n == 0 then r else Tick(Ticks(r, n - 1, uri), uri)
  }

  /** Below the limit both timers only count, and the recording goes on. */
  lemma {:induction false} TicksBelowLimit(r: Recorder, n: nat, uri: Option<string>)
    requires r.timerRunning && r.recordingDuration == 0 && n < MaxRecordingDuration
    ensures TicksAsWritten(r, n) == r.(recordingDuration := n)
    ensures Ticks(r, n, uri) == r.(recordingDuration := n)
  {
    if n > 0 {
      TicksBelowLimit(r, n - 1, uri);
    }
  }

  /**
   * As written, a recording started and left alone is still recording after
   * the limit, with the timer gone: nothing stops it at 60 seconds.
   */
  lemma LimitDoesNotStop(r: Recorder, granted: bool, started: bool, extra: nat)
    requires granted && started
    ensures var s := TicksAsWritten(TicksAsWritten(Start(r, granted, started), MaxRecordingDuration), extra);
      s.recordingState == Recording && s.hasRecording && s.recordingDuration == MaxRecordingDuration && !s.timerRunning
  {
    var running := Start(r, granted, started);
    TicksBelowLimit(running, MaxRecordingDuration - 1, None);
    var atLimit := TicksAsWritten(running, MaxRecordingDuration);
    TicksIdle(atLimit, extra);
  }

  lemma {:induction false} TicksIdle(r: Recorder, n: nat)
    requires !r.timerRunning
    ensures TicksAsWritten(r, n) == r
  {
    if n > 0 {
      TicksIdle(r, n - 1);
    }
  }

  /** As intended, the 60th second stops the recording and puts it up for review. */
  lemma LimitStops(r: Recorder, granted: bool, started: bool, uri: Option<string>)
    requires granted && started
    ensures var s := Ticks(Start(r, granted, started), MaxRecordingDuration, uri);
      s.recordingState == Review && !s.hasRecording && s.audioUri == uri &&
      s.recordingDuration == MaxRecordingDuration && !s.timerRunning
  {
    TicksBelowLimit(Start(r, granted, started), MaxRecordingDuration - 1, uri);
  }

  // ----- formatDuration -----

  function MinutesText(seconds: nat): (r: string)
    ensures AllDigits(r)
  {
    NatToString(seconds / 60)
  }

  function SecondsText(seconds: nat): string
  {
    PadStart(NatToString(seconds % 60), 2, '0')
  }

  /** formatDuration: whole minutes, a colon, and the seconds in two digits. */
  function FormatDuration(seconds: nat): string
  {
    MinutesText(seconds) + ":" + SecondsText(seconds)
  }

  /** The seconds are two digits with their value. */
  lemma SecondsTextDigits(seconds: nat)
    ensures |SecondsText(seconds)| == 2 && AllDigits(SecondsText(seconds))
    ensures DigitsValue(SecondsText(seconds)) == seconds % 60
  {
    var x := seconds % 60;
    assert |NatToString(x)| <= 2 by {
      if x >= 10 {
        assert |NatToString(x / 10)| == 1;
      }
    }
    DigitsValueOfNatToString(x);
    ZeroPadValue(NatToString(x), 2);
  }

  /**
   * The text splits at its one colon into the minutes and the two-digit
   * seconds, which read back as the duration.
   */
  lemma FormatDurationReadsBack(seconds: nat)
    ensures Split(FormatDuration(seconds), ':') == [MinutesText(seconds), SecondsText(seconds)]
    ensures |SecondsText(seconds)| == 2 && AllDigits(SecondsText(seconds))
    ensures 60 * DigitsValue(MinutesText(seconds)) + DigitsValue(SecondsText(seconds)) == seconds
  {
    SecondsTextDigits(seconds);
    DigitsValueOfNatToString(seconds / 60);
    assert ':' !in MinutesText(seconds) by {
      assert AllDigits(MinutesText(seconds));
    }
    assert ':' !in SecondsText(seconds) by {
      assert AllDigits(SecondsText(seconds));
    }
    SplitAt(MinutesText(seconds), ':', SecondsText(seconds));
    SplitNoSep(SecondsText(seconds), ':');
  }

  /** Different durations are written differently. */
  lemma FormatDurationInjective(a: nat, b: nat)
    requires FormatDuration(a) == FormatDuration(b)
    ensures a == b
  {
    FormatDurationReadsBack(a);
    FormatDurationReadsBack(b);
  }

  // ----- The hook -----

  class VoiceRecorderHook {
    var recordingState: RecordingState
    var recordingDuration: nat
    var hasRecording: bool
    var audioUri: Option<string>
    var hasSound: bool
    var isPlaying: bool
    var timerRunning: bool

    function State(): Recorder
      reads this
    {
      Recorder(recordingState, recordingDuration, hasRecording, audioUri, hasSound, isPlaying, timerRunning)
    }

    constructor()
      ensures State() == Initial && Consistent(State())
    {
      recordingState := Idle;
      recordingDuration := 0;
      hasRecording := false;
      audioUri := None;
      hasSound := false;
      isPlaying := false;
      timerRunning := false;
    }

    method StartRecording(granted: bool, started: bool)
      modifies this
      ensures State() == Start(old(State()), granted, started)
    {
      if !granted || !started {
        return;
      }
      hasRecording := true;
      recordingState := Recording;
      recordingDuration := 0;
      timerRunning := true;
    }

    method StopRecording(uri: Option<string>, stopped: bool)
      modifies this
      ensures State() == Stop(old(State()), uri, stopped)
    {
      if !hasRecording || !stopped {
        return;
      }
      hasRecording := false;
      audioUri := uri;
      recordingState := Review;
    }

    method CancelRecording(unloaded: bool)
      modifies this
      ensures State() == Cancel(old(State()), unloaded)
    {
      if hasRecording && !unloaded {
        return;
      }
      hasRecording := false;
      recordingState := Idle;
      recordingDuration := 0;
      audioUri := None;
    }

    method ReRecording(unloaded: bool)
      modifies this
      ensures State() == ReRecord(old(State()), unloaded)
    {
      if hasSound && !unloaded {
        return;
      }
      hasSound := false;
      recordingState := Idle;
      recordingDuration := 0;
      audioUri := None;
      isPlaying := false;
    }

    method TogglePlaying(ok: bool)
      modifies this
      ensures State() == TogglePlayback(old(State()), ok)
    {
      if audioUri.None? || audioUri.value == "" || !ok {
        return;
      }
      if hasSound {
        isPlaying := !isPlaying;
      } else {
        hasSound := true;
        isPlaying := true;
      }
    }

    method FinishPlayback()
      modifies this
      ensures State() == PlaybackFinished(old(State()))
    {
      isPlaying := false;
    }

    /** The timer callback as written. */
    method TimerTick()
      modifies this
      ensures State() == TickAsWritten(old(State()))
    {
      if !timerRunning {
        return;
      }
      var next := recordingDuration + 1;
      if next >= MaxRecordingDuration {
        timerRunning := false;
      }
      recordingDuration := next;
    }
  }
}
