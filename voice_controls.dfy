/**
 * The push-to-talk button: the elapsed-time label and the two flags that
 * make a press released before the recorder has started still stop the
 * recording as soon as it starts.
 */
module VoiceControls {
  import opened Wrappers
  import JsText

  /** `formatTime`: whole minutes, a colon, and the seconds padded to two digits. */
  function FormatTime(seconds: nat): (t: string)
    ensures |t| >= 4 && t[|t| - 3] == ':'
    ensures t[..|t| - 3] == JsText.NatToString(seconds / 60)
    ensures JsText.AllDigits(t[|t| - 2..])
    ensures JsText.DigitsValue(t[|t| - 2..]) == seconds % 60
  {
    var mins := JsText.NatToString(seconds / 60);
    var secs := JsText.PadStart(JsText.NatToString(seconds % 60), 2, '0');
    PaddedSeconds(seconds % 60);
    assert (mins + ":" + secs)[..|mins|] == mins;
    assert (mins + ":" + secs)[|mins| + 1..] == secs;
    mins + ":" + secs
  }

  /** Two-digit padding of a value below 60 keeps its value. */
  lemma PaddedSeconds(s: nat)
    requires s < 60
    ensures var p := JsText.PadStart(JsText.NatToString(s), 2, '0');
      |p| == 2 && JsText.AllDigits(p) && JsText.DigitsValue(p) == s
  {
    var d := JsText.NatToString(s);
    JsText.NatToStringRoundTrip(s);
    var p := JsText.PadStart(d, 2, '0');
    if s < 10 {
      assert p == ['0'] + d;
      assert p[..1] == ['0'];
      assert JsText.DigitsValue(p[..1]) == 0;
    } else {
      assert |d| == 2 by {
        var q := JsText.NatToString(s / 10);
        assert |q| == 1;
      }
    }
  }

  /** Reads "m:ss" back into seconds; `None` for anything not of that shape. */
  function ParseTime(t: string): Option<nat> {
    if |t| >= 4 && t[|t| - 3] == ':' && JsText.AllDigits(t[..|t| - 3]) && JsText.AllDigits(t[|t| - 2..])
    then Some(JsText.DigitsValue(t[..|t| - 3]) * 60 + JsText.DigitsValue(t[|t| - 2..]))
    else None
  }

  /** The label loses nothing: reading it back gives the elapsed seconds. */
  lemma FormatTimeRoundTrip(seconds: nat)
    ensures ParseTime(FormatTime(seconds)) == Some(seconds)
  {
    JsText.NatToStringRoundTrip(seconds / 60);
  }

  /** The two refs of the component: `isPressingRef` and `shouldStopAfterStartRef`. */
  datatype PressFlags = PressFlags(isPressing: bool, shouldStopAfterStart: bool)

  const Released := PressFlags(false, false)

  /**
   * The guard of `handlePressStart`: ignored while processing or already
   * recording, or for a pointer button other than the primary one
   * (`None` when the event carries no button number).
   */
  predicate StartAccepted(isProcessing: bool, isRecording: bool, button: Option<int>) {
    !isProcessing && !isRecording && !(button.Some? && button.value != 0)
  }

  /** The flags after `handlePressStart` has run up to its `await startRecording()`. */
  function PressStart(f: PressFlags, isProcessing: bool, isRecording: bool, button: Option<int>): (g: PressFlags)
    ensures !StartAccepted(isProcessing, isRecording, button) ==> g == f
    ensures StartAccepted(isProcessing, isRecording, button) ==> g == PressFlags(true, false)
  {
    if StartAccepted(isProcessing, isRecording, button) then PressFlags(true, false) else f
  }

  /** `handlePressEnd`: the new flags, and whether it calls `stopRecording` itself. */
  function PressEnd(f: PressFlags, isRecording: bool): (res: (PressFlags, bool))
    ensures !res.0.isPressing
    ensures res.1 <==> isRecording
    ensures res.0.shouldStopAfterStart == (f.shouldStopAfterStart || !isRecording)
  {
    if isRecording then (f.(isPressing := false), true)
    else (PressFlags(false, true), false)
  }

  /**
   * What happens when `startRecording()` settles: on success, whether it
   * stops again at once; on failure, both flags are cleared.
   */
  function StartSettled(f: PressFlags, started: bool): (res: (PressFlags, bool))
    ensures started ==> res.0 == f && (res.1 <==> !f.isPressing || f.shouldStopAfterStart)
    ensures !started ==> res.0 == Released && !res.1
  {
    if started then (f, !f.isPressing || f.shouldStopAfterStart) else (Released, false)
  }

  /** A pointer event reaching the button while `startRecording()` is pending. */
  datatype PressEvent =
    | Down(isProcessing: bool, isRecording: bool, button: Option<int>)
    | Up(isRecording: bool)

  function Step(f: PressFlags, e: PressEvent): PressFlags {
    match e
    case Down(p, r, b) => PressStart(f, p, r, b)
    case Up(r) => PressEnd(f, r).0
  }

  function Replay(f: PressFlags, events: seq<PressEvent>): PressFlags
    decreases |events|
  {
    if events == [] then f else Replay(Step(f, events[0]), events[1..])
  }

  predicate AcceptedDown(e: PressEvent) {
    e.Down? && StartAccepted(e.isProcessing, e.isRecording, e.button)
  }

  /**
   * Once a press has started, and with no new accepted press in between,
   * the recording is stopped as soon as `startRecording()` succeeds exactly
   * when the button was released (or cancelled) while it was pending.
   */
  lemma {:induction false} StopsIffReleasedBeforeStart(events: seq<PressEvent>)
    requires forall i :: 0 <= i < |events| ==> !AcceptedDown(events[i])
    ensures var f := Replay(PressStart(Released, false, false, None), events);
      StartSettled(f, true).1 <==> exists i :: 0 <= i < |events| && events[i].Up?
  {
    ReleasedStaysStopping(PressFlags(true, false), events);
  }

  /** Helper: from held-and-not-stopping, the flags only change by an Up, and then for good. */
  lemma {:induction false} ReleasedStaysStopping(f: PressFlags, events: seq<PressEvent>)
    requires forall i :: 0 <= i < |events| ==> !AcceptedDown(events[i])
    ensures var g := Replay(f, events);
      (!g.isPressing || g.shouldStopAfterStart) <==>
        ((!f.isPressing || f.shouldStopAfterStart) || exists i :: 0 <= i < |events| && events[i].Up?)
    decreases |events|
  {
    if events != [] {
      var e := events[0];
      ReleasedStaysStopping(Step(f, e), events[1..]);
      if exists i :: 0 <= i < |events[1..]| && events[1..][i].Up? {
        var i :| 0 <= i < |events[1..]| && events[1..][i].Up?;
        assert events[i + 1].Up?;
      }
      if e.Up? {
        assert events[0].Up?;
      }
      if exists i :: 0 <= i < |events| && events[i].Up? {
        var i :| 0 <= i < |events| && events[i].Up?;
        if i > 0 {
          assert events[1..][i - 1].Up?;
        }
      }
    }
  }

  /**
   * The completion effect: the recorded blob is handed to
   * `onRecordingComplete` only when there is one and recording has ended.
   */
  function CompletedRecording<B>(audioBlob: Option<B>, isRecording: bool): (delivered: Option<B>)
    ensures delivered.Some? <==> audioBlob.Some? && !isRecording
    ensures delivered.Some? ==> delivered == audioBlob
  {
    if audioBlob.Some? && !isRecording then audioBlob else None
  }

  /** The two refs of one mounted button, updated in place by its handlers. */
  class PressController {
    var isPressing: bool
    var shouldStopAfterStart: bool

    function Flags(): PressFlags
      reads this
    {
      PressFlags(isPressing, shouldStopAfterStart)
    }

    constructor ()
      ensures Flags() == Released
    {
      isPressing, shouldStopAfterStart := false, false;
    }

    /** `handlePressStart` up to the `await`: `accepted` says whether `startRecording()` is called. */
    method HandlePressStart(isProcessing: bool, isRecording: bool, button: Option<int>) returns (accepted: bool)
      modifies this
      ensures accepted <==> StartAccepted(isProcessing, isRecording, button)
      ensures Flags() == PressStart(old(Flags()), isProcessing, isRecording, button)
    {
      if isProcessing || isRecording {
        return false;
      }
      if button.Some? && button.value != 0 {
        return false;
      }
      isPressing := true;
      shouldStopAfterStart := false;
      accepted := true;
    }

    /** The rest of `handlePressStart`, once `startRecording()` has resolved or thrown. */
    method OnStartSettled(started: bool) returns (stop: bool)
      modifies this
      ensures (Flags(), stop) == StartSettled(old(Flags()), started)
    {
      if started {
        stop := !isPressing || shouldStopAfterStart;
      } else {
        isPressing := false;
        shouldStopAfterStart := false;
        stop := false;
      }
    }

    /** `handlePressEnd`: `stopNow` says whether it calls `stopRecording()` itself. */
    method HandlePressEnd(isRecording: bool) returns (stopNow: bool)
      modifies this
      ensures (Flags(), stopNow) == PressEnd(old(Flags()), isRecording)
    {
      isPressing := false;
      if isRecording {
        stopNow := true;
      } else {
        shouldStopAfterStart := true;
        stopNow := false;
      }
    }
  }
}
