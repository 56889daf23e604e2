/** The `MusicIdentifier` object of hello.py: the fields its identification,
    recording and event-handling methods update in place. Each method except
    the two toggles is proved to move the object from one state to the next
    as the matching function of module Session says; the toggles state their
    one-field change directly. */
module Identifier {
  import opened Values
  import opened Recognition
  import opened Capture
  import opened Events
  import opened Display
  import opened Session

  class MusicIdentifier {
    var lastIdentified: Option<Song>
    var lastSongTime: Option<real>
    var recording: bool
    var processingBusy: bool
    var lastRecordTime: real
    var frames: seq<Chunk>
    var resultQueue: seq<Option<Song>>
    var isFullscreen: bool
    var isStretched: bool
    var scrollStartTime: real

    /** The object as a Session state. */
    function State(): IdentifierState
      reads this
    {
      IdentifierState(lastIdentified, lastSongTime, recording, processingBusy, lastRecordTime,
                      frames, resultQueue, ScreenMode(isFullscreen, isStretched), scrollStartTime)
    }

    ghost predicate Valid()
      reads this
    {
      Session.Valid(State())
    }

    /** `__init__`, with the run loop's clock taken at `startTime`. */
    constructor (startTime: real)
      ensures State() == Initial(startTime) && Valid()
    {
      lastIdentified := None;
      lastSongTime := None;
      recording := false;
      processingBusy := false;
      lastRecordTime := startTime;
      frames := [];
      resultQueue := [];
      isFullscreen := false;
      isStretched := false;
      scrollStartTime := 0.0;
    }

    /** `check_recognition_result` at time `now` (with the processing thread's
        release corrected as Session.CheckStep describes); `newSong` says
        whether the album art of a newly identified song is shown. */
    method CheckRecognitionResult(now: real, workerAlive: bool) returns (newSong: bool)
      requires Valid()
      modifies this`lastIdentified, this`lastSongTime, this`processingBusy, this`resultQueue
      ensures (State(), newSong) == CheckStep(old(State()), now, workerAlive)
      ensures Valid()
    {
      newSong := false;
      if resultQueue != [] {
        var result := resultQueue[0];
        resultQueue := resultQueue[1..];
        if result.Some? {
          var song := result.value;
          var isNewSong := lastIdentified.None? ||
                           lastIdentified.value.title != song.title ||
                           lastIdentified.value.artist != song.artist;
          if isNewSong {
            lastIdentified := Some(song);
            lastSongTime := Some(now);
            newSong := true;
          }
        }
      }
      if processingBusy && !workerAlive {
        processingBusy := false;
      }
    }

    /** `start_recording`; `spawned` says whether a recording thread was started. */
    method StartRecording() returns (spawned: bool)
      modifies this`recording
      ensures (State(), spawned) == StartRecordingStep(old(State()))
    {
      if recording {
        return false;
      }
      recording := true;
      spawned := true;
    }

    /** The recording gate of the run loop at time `now`. */
    method RecordingGate(now: real) returns (started: bool)
      requires Valid()
      modifies this`recording, this`lastRecordTime
      ensures (State(), started) == GateStep(old(State()), now)
      ensures Valid()
    {
      started := false;
      if !recording && !processingBusy && now - lastRecordTime >= RecordSeconds {
        var _ := StartRecording();
        lastRecordTime := now;
        started := true;
      }
    }

    /** `record_audio` over the reads of `trace`, timed from `start`; `clip` is
        the copy of the frames given to the processing thread. */
    method RecordAudio(start: real, trace: seq<Read>) returns (clip: seq<Chunk>)
      requires Valid()
      modifies this`frames, this`processingBusy, this`recording
      ensures (State(), clip) == RecordStep(old(State()), start, trace)
      ensures Valid()
    {
      frames := [];
      var i := 0;
      while i < |trace| && trace[i].at - start < RecordSeconds && recording
        modifies this`frames
        invariant 0 <= i <= |trace|
        invariant Captured(start, recording, trace) == frames + Captured(start, recording, trace[i..])
        decreases |trace| - i
      {
        match trace[i].outcome
        case ReadError =>
          break;
        case Data(chunk) =>
          CaptureAppends(start, recording, trace, i, frames);
          frames := frames + [chunk];
          i := i + 1;
      }
      CaptureStops(start, recording, trace, i, frames);
      clip := frames;
      processingBusy := true;
      recording := false;
    }

    /** The processing thread queues the normalised `response`. */
    method FinishProcessing(response: Value)
      requires Valid()
      modifies this`resultQueue
      ensures State() == FinishStep(old(State()), response)
      ensures Valid()
    {
      resultQueue := resultQueue + [Normalise(response)];
    }

    /** `toggle_fullscreen`, without the window switch. */
    method ToggleFullscreen()
      modifies this`isFullscreen
      ensures isFullscreen == !old(isFullscreen)
    {
      isFullscreen := !isFullscreen;
    }

    /** `toggle_stretch_mode`. */
    method ToggleStretchMode()
      modifies this`isStretched
      ensures isStretched == !old(isStretched)
    {
      isStretched := !isStretched;
    }

    /** `handle_events` over one batch of events. */
    method HandleEvents(events: seq<Event>) returns (running: bool)
      requires Valid()
      modifies this`isFullscreen, this`isStretched
      ensures (State(), running) == HandleStep(old(State()), events)
      ensures Valid()
    {
      var i := 0;
      while i < |events|
        invariant 0 <= i <= |events|
        invariant HandleBatch(old(State()).mode, events) ==
                  HandleBatch(ScreenMode(isFullscreen, isStretched), events[i..])
      {
        assert events[i..][1..] == events[i + 1..];
        match events[i] {
          case Quit =>
            return false;
          case KeyDown(key) =>
            if key == KeyF {
              ToggleFullscreen();
            } else if key == KeyS {
              ToggleStretchMode();
            } else if key == KeyEscape && isFullscreen {
              ToggleFullscreen();
            }
          case OtherEvent(_) =>
        }
        i := i + 1;
      }
      return true;
    }

    /** `draw_window` for a title `titleWidth` pixels wide; `title` is what is
        drawn of it, if anything. */
    method DrawWindow(now: real, titleWidth: int) returns (title: Option<TitleDraw>)
      requires Valid()
      modifies this`scrollStartTime
      ensures (State(), title) == DrawStep(old(State()), now, titleWidth)
      ensures Valid()
    {
      title := None;
      if lastIdentified.Some? && lastSongTime.Some? && lastSongTime.value != 0.0 {
        var alpha := FadeAlpha(now - lastSongTime.value);
        if alpha > 0 {
          var placement;
          if titleWidth <= MaxTitleWidth {
            placement := Centered(HalfRoundedEven(MaxTitleWidth - titleWidth));
          } else {
            var elapsed := now - scrollStartTime;
            if elapsed > TotalScrollTime(titleWidth) {
              scrollStartTime := now;
              elapsed := 0.0;
            }
            placement := Scrolled(ScrollOffset(elapsed, titleWidth, MaxTitleWidth));
          }
          title := Some(TitleDraw(alpha, placement));
        }
      }
    }

    /** One turn of the run loop at `now`; `running` is false once a `Quit` is seen. */
    method RunTick(now: real, events: seq<Event>, titleWidth: int, workerAlive: bool)
      returns (running: bool)
      requires Valid()
      modifies this
      ensures (State(), running) == TickStep(old(State()), now, events, titleWidth, workerAlive)
      ensures Valid()
    {
      running := HandleEvents(events);
      if !running {
        return;
      }
      var _ := DrawWindow(now, titleWidth);
      var _ := RecordingGate(now);
      var _ := CheckRecognitionResult(now, workerAlive);
    }
  }
}
