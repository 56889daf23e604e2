/** The state of `MusicIdentifier` (hello.py) as a value, and one function per
    operation that changes it. Threads are seen sequentially: the processing
    thread is the `busy` flag, its liveness is an input of the step that polls
    it, and the result queue is a sequence consumed from the front. Every
    method of the class in identifier.dfy except the two toggles is proved to
    follow one of these functions; the lemmas here state what the operations
    promise. */
module Session {
  import opened Values
  import opened Recognition
  import opened Capture
  import opened Events
  import opened Display

  datatype IdentifierState = IdentifierState(
    lastIdentified: Option<Song>,   // last_identified
    lastSongTime: Option<real>,     // last_song_time
    recording: bool,                // recording
    busy: bool,                     // processing_thread is not None
    lastRecordTime: real,           // last_record_time of the run loop
    frames: seq<Chunk>,             // frames
    queue: seq<Option<Song>>,       // result_queue, oldest first
    mode: ScreenMode,               // is_fullscreen, is_stretched
    scrollStartTime: real)          // scroll_start_time

  /** The state after `__init__`, with the run loop's clock started at `startTime`. */
  function Initial(startTime: real): (s: IdentifierState)
    ensures Valid(s)
    ensures s.lastIdentified.None? && !s.recording && !s.busy && s.queue == []
    ensures s.lastRecordTime == startTime
  {
    IdentifierState(None, None, false, false, startTime, [], [], ScreenMode(false, false), 0.0)
  }

  /** A song and its identification time are stored together, and no
      recording runs while a clip is still being processed. */
  predicate Valid(s: IdentifierState) {
    && (s.lastIdentified.Some? <==> s.lastSongTime.Some?)
    && !(s.recording && s.busy)
  }

  /** Songs are the same when title and artist agree; artwork does not count. */
  predicate SameSong(a: Song, b: Song) {
    a.title == b.title && a.artist == b.artist
  }

  /** `is_new_song`: nothing stored yet, or a different title or artist. */
  predicate IsNewSong(last: Option<Song>, candidate: Song) {
    last.None? || !SameSong(last.value, candidate)
  }

  /** Take the oldest result off the queue and record it if it is a new song;
      the flag says whether it was (and the album art is then shown). */
  function Consume(s: IdentifierState, now: real): (r: (IdentifierState, bool))
    requires s.queue != []
    ensures r.1 <==> s.queue[0].Some? && IsNewSong(s.lastIdentified, s.queue[0].value)
    ensures r.1 ==> r.0 == s.(queue := s.queue[1..], lastIdentified := s.queue[0],
                              lastSongTime := Some(now))
    ensures !r.1 ==> r.0 == s.(queue := s.queue[1..])
  {
    var rest := s.(queue := s.queue[1..]);
    match s.queue[0]
    case None => (rest, false)
    case Some(c) =>
      if IsNewSong(s.lastIdentified, c)
      then (rest.(lastIdentified := Some(c), lastSongTime := Some(now)), true)
      else (rest, false)
  }

  /** `check_recognition_result` as written: on an empty queue `get_nowait`
      raises and the whole body, including the release of a finished
      processing thread, is skipped. */
  function CheckStepAsWritten(s: IdentifierState, now: real, workerAlive: bool): (r: (IdentifierState, bool))
    ensures s.queue == [] ==> r == (s, false)
    ensures s.queue != [] ==> r.0.queue == s.queue[1..] && (r.0.busy <==> s.busy && workerAlive)
    ensures r.1 ==> s.queue != [] && s.queue[0].Some? && r.0.lastIdentified == s.queue[0]
    ensures !r.1 ==> r.0.lastIdentified == s.lastIdentified && r.0.lastSongTime == s.lastSongTime
  {
    if s.queue == [] then (s, false)
    else
      var t := Consume(s, now);
      (t.0.(busy := t.0.busy && workerAlive), t.1)
  }

  /** `check_recognition_result` with a finished processing thread released on
      every poll, whether or not a result was waiting. */
  function CheckStep(s: IdentifierState, now: real, workerAlive: bool): (r: (IdentifierState, bool))
    ensures r.0.busy <==> s.busy && workerAlive
    ensures s.queue == [] ==> r == (s.(busy := s.busy && workerAlive), false)
    ensures s.queue != [] ==> r.0.queue == s.queue[1..]
    ensures r.1 ==> s.queue != [] && s.queue[0].Some? && r.0.lastIdentified == s.queue[0]
                    && r.0.lastSongTime == Some(now)
    ensures !r.1 ==> r.0.lastIdentified == s.lastIdentified && r.0.lastSongTime == s.lastSongTime
  {
    var t := if s.queue == [] then (s, false) else Consume(s, now);
    (t.0.(busy := t.0.busy && workerAlive), t.1)
  }

  /** `start_recording`: the flag says whether a recording thread was started. */
  function StartRecordingStep(s: IdentifierState): (r: (IdentifierState, bool))
    ensures r.0.recording
    ensures r.1 <==> !s.recording
    ensures s.recording ==> r.0 == s
    ensures !s.recording ==> r.0 == s.(recording := true)
  {
    (s.(recording := true), !s.recording)
  }

  /** The condition of the run loop's recording gate. */
  predicate GateOpen(s: IdentifierState, now: real) {
    !s.recording && !s.busy && now - s.lastRecordTime >= RecordSeconds
  }

  /** The recording gate of the run loop. */
  function GateStep(s: IdentifierState, now: real): (r: (IdentifierState, bool))
    ensures r.1 <==> GateOpen(s, now)
    ensures r.1 ==> r.0.recording && r.0.lastRecordTime == now && !r.0.busy
    ensures !r.1 ==> r.0 == s
  {
    if GateOpen(s, now) then (StartRecordingStep(s).0.(lastRecordTime := now), true)
    else (s, false)
  }

  /** `record_audio`: the frames collected, handed to a new processing thread. */
  function RecordStep(s: IdentifierState, start: real, trace: seq<Read>): (r: (IdentifierState, seq<Chunk>))
    ensures !r.0.recording && r.0.busy && r.0.frames == r.1
    ensures |r.1| <= |trace|
    ensures r.0.queue == s.queue && r.0.lastIdentified == s.lastIdentified
  {
    var chunks := Captured(start, s.recording, trace);
    (s.(frames := chunks, busy := true, recording := false), chunks)
  }

  /** The processing thread puts its normalised result on the queue. */
  function FinishStep(s: IdentifierState, response: Value): (r: IdentifierState)
    ensures |r.queue| == |s.queue| + 1
    ensures r.queue[..|s.queue|] == s.queue && r.queue[|s.queue|] == Normalise(response)
    ensures r.busy == s.busy && r.recording == s.recording
  {
    s.(queue := s.queue + [Normalise(response)])
  }

  /** `handle_events` over one batch; the flag says whether to keep running. */
  function HandleStep(s: IdentifierState, events: seq<Event>): (r: (IdentifierState, bool))
    ensures r.1 <==> Quit !in events
    ensures r.0 == s.(mode := r.0.mode)
  {
    RunningIffNoQuit(s.mode, events);
    var h := HandleBatch(s.mode, events);
    (s.(mode := h.1), h.0)
  }

  /** What `draw_window` draws of the title: its alpha and its placement. */
  datatype TitleDraw = TitleDraw(alpha: int, placement: Placement)

  /** The caption alpha `draw_window` computes, when it computes one: only
      with a song stored and a truthy (non-zero) identification time. */
  function CaptionAlpha(s: IdentifierState, now: real): (a: Option<int>)
    ensures a.Some? <==> s.lastIdentified.Some? && s.lastSongTime.Some? && s.lastSongTime.value != 0.0
    ensures a.Some? ==> 0 <= a.value <= 255
    ensures a.Some? && now - s.lastSongTime.value < ShowDuration ==> a.value == 255
  {
    if s.lastIdentified.Some? && s.lastSongTime.Some? && s.lastSongTime.value != 0.0
    then Some(FadeAlpha(now - s.lastSongTime.value))
    else None
  }

  /** `draw_window` for a title that renders `titleWidth` pixels wide; the
      scroll clock moves only when a scrolling title is drawn. */
  function DrawStep(s: IdentifierState, now: real, titleWidth: int): (r: (IdentifierState, Option<TitleDraw>))
    ensures r.0 == s.(scrollStartTime := r.0.scrollStartTime)
    ensures r.1.Some? ==> 0 < r.1.value.alpha <= 255
    ensures r.1.None? || titleWidth <= MaxTitleWidth ==> r.0 == s
  {
    var a := CaptionAlpha(s, now);
    if a.Some? && a.value > 0 then
      var clock := if titleWidth > MaxTitleWidth
                   then ScrollClock(s.scrollStartTime, now, titleWidth)
                   else s.scrollStartTime;
      (s.(scrollStartTime := clock),
       Some(TitleDraw(a.value, Place(s.scrollStartTime, now, titleWidth, MaxTitleWidth))))
    else (s, None)
  }

  /** One turn of the run loop at `now`. */
  function TickStep(s: IdentifierState, now: real, events: seq<Event>, titleWidth: int,
                    workerAlive: bool): (r: (IdentifierState, bool))
    ensures r.1 <==> Quit !in events
    ensures !r.1 ==> r.0 == s.(mode := r.0.mode)
    ensures r.0.frames == s.frames
  {
    RunningIffNoQuit(s.mode, events);
    var h := HandleStep(s, events);
    if !h.1 then (h.0, false)
    else
      var drawn := DrawStep(h.0, now, titleWidth).0;
      var gated := GateStep(drawn, now).0;
      (CheckStep(gated, now, workerAlive).0, true)
  }

  /** One turn of the run loop with the result poll as written. */
  function TickStepAsWritten(s: IdentifierState, now: real, events: seq<Event>, titleWidth: int,
                             workerAlive: bool): (r: (IdentifierState, bool))
    ensures r.1 <==> Quit !in events
    ensures !r.1 ==> r.0 == s.(mode := r.0.mode)
    ensures r.0.frames == s.frames
  {
    RunningIffNoQuit(s.mode, events);
    var h := HandleStep(s, events);
    if !h.1 then (h.0, false)
    else
      var drawn := DrawStep(h.0, now, titleWidth).0;
      var gated := GateStep(drawn, now).0;
      (CheckStepAsWritten(gated, now, workerAlive).0, true)
  }

  // ---- Change detection --------------------------------------------------

  /** A `None` result is dropped without touching the stored song. */
  lemma NoneResultChangesNothing(s: IdentifierState, now: real, workerAlive: bool)
    requires s.queue != [] && s.queue[0] == None
    ensures CheckStep(s, now, workerAlive) ==
      (s.(queue := s.queue[1..], busy := s.busy && workerAlive), false)
  {
  }

  /** A song result replaces the stored one, stamped `now`, exactly when it is new. */
  lemma SongResultRecordedIffNew(s: IdentifierState, c: Song, now: real, workerAlive: bool)
    requires s.queue != [] && s.queue[0] == Some(c)
    ensures CheckStep(s, now, workerAlive).1 <==> IsNewSong(s.lastIdentified, c)
    ensures IsNewSong(s.lastIdentified, c) ==>
      CheckStep(s, now, workerAlive).0 ==
        s.(queue := s.queue[1..], busy := s.busy && workerAlive,
           lastIdentified := Some(c), lastSongTime := Some(now))
    ensures !IsNewSong(s.lastIdentified, c) ==>
      CheckStep(s, now, workerAlive).0 == s.(queue := s.queue[1..], busy := s.busy && workerAlive)
  {
  }

  /** A result that differs from the stored song only in its artwork keeps the
      stored record, old artwork included. */
  lemma ArtworkOnlyChangeIsNotNew(s: IdentifierState, a: Song, b: Song, now: real, workerAlive: bool)
    requires s.lastIdentified == Some(a) && s.queue != [] && s.queue[0] == Some(b)
    requires a.title == b.title && a.artist == b.artist
    ensures CheckStep(s, now, workerAlive).0.lastIdentified == Some(a)
    ensures CheckStep(s, now, workerAlive).0.lastSongTime == s.lastSongTime
    ensures !CheckStep(s, now, workerAlive).1
  {
  }

  /** The same response recognised twice in a row: the first poll leaves that
      song stored, the second reports nothing new and keeps the stamp. */
  lemma RepeatedResponseIsNotNew(s: IdentifierState, response: Value, now1: real, now2: real,
                                 alive1: bool, alive2: bool)
    requires Valid(s) && s.queue == [] && Normalise(response).Some?
    ensures var s1 := CheckStep(FinishStep(FinishStep(s, response), response), now1, alive1).0;
      && s1.lastIdentified.Some? && SameSong(s1.lastIdentified.value, Normalise(response).value)
      && s1.lastSongTime.Some?
      && !CheckStep(s1, now2, alive2).1
      && CheckStep(s1, now2, alive2).0.lastSongTime == s1.lastSongTime
  {
    var c := Normalise(response).value;
    var s0 := FinishStep(FinishStep(s, response), response);
    assert s0.queue == [Some(c), Some(c)];
    var s1 := CheckStep(s0, now1, alive1).0;
    assert s1.queue == [Some(c)];
    if IsNewSong(s.lastIdentified, c) {
      assert s1.lastIdentified == Some(c);
    } else {
      assert s1.lastIdentified == s.lastIdentified;
    }
  }

  // ---- Recording ---------------------------------------------------------

  /** The gate starts a recording exactly when nothing is recording, nothing is
      being processed and RECORD_SECONDS have passed; it then restarts its clock. */
  lemma GateStartsIff(s: IdentifierState, now: real)
    ensures GateStep(s, now).1 <==>
      !s.recording && !s.busy && now - s.lastRecordTime >= RecordSeconds
    ensures GateStep(s, now).1 ==>
      GateStep(s, now).0 == s.(recording := true, lastRecordTime := now)
    ensures !GateStep(s, now).1 ==> GateStep(s, now).0 == s
  {
  }

  /** `start_recording` while recording starts nothing and changes nothing. */
  lemma StartRecordingWhileRecording(s: IdentifierState)
    requires s.recording
    ensures StartRecordingStep(s) == (s, false)
  {
  }

  /** A recording resets the frames to what it captured, hands exactly those
      on for processing and ends with `recording` off. */
  lemma RecordHandsOffFrames(s: IdentifierState, start: real, trace: seq<Read>)
    ensures var r := RecordStep(s, start, trace);
      && r.1 == r.0.frames == Captured(start, s.recording, trace)
      && !r.0.recording && r.0.busy
  {
  }

  /** Every step the run loop and the threads perform keeps the invariant;
      `start_recording` is reached only through the gate, so it is covered
      by `GateStep`. */
  lemma StepsPreserveValid(s: IdentifierState, now: real, start: real, trace: seq<Read>,
                           response: Value, events: seq<Event>, titleWidth: int, workerAlive: bool)
    requires Valid(s)
    ensures Valid(CheckStep(s, now, workerAlive).0)
    ensures Valid(GateStep(s, now).0)
    ensures Valid(RecordStep(s, start, trace).0)
    ensures Valid(FinishStep(s, response))
    ensures Valid(HandleStep(s, events).0)
    ensures Valid(DrawStep(s, now, titleWidth).0)
  {
  }

  /** So does a whole turn of the run loop. */
  lemma TickPreservesValid(s: IdentifierState, now: real, events: seq<Event>, titleWidth: int,
                           workerAlive: bool)
    requires Valid(s)
    ensures Valid(TickStep(s, now, events, titleWidth, workerAlive).0)
  {
    var h := HandleStep(s, events).0;
    StepsPreserveValid(s, now, 0.0, [], Null, events, titleWidth, workerAlive);
    var d := DrawStep(h, now, titleWidth).0;
    StepsPreserveValid(h, now, 0.0, [], Null, events, titleWidth, workerAlive);
    var g := GateStep(d, now).0;
    StepsPreserveValid(d, now, 0.0, [], Null, events, titleWidth, workerAlive);
    StepsPreserveValid(g, now, 0.0, [], Null, events, titleWidth, workerAlive);
  }

  /** The turn as written keeps the invariant too: the correction is not
      needed for it. */
  lemma TickAsWrittenPreservesValid(s: IdentifierState, now: real, events: seq<Event>,
                                    titleWidth: int, workerAlive: bool)
    requires Valid(s)
    ensures Valid(TickStepAsWritten(s, now, events, titleWidth, workerAlive).0)
  {
    var h := HandleStep(s, events).0;
    StepsPreserveValid(s, now, 0.0, [], Null, events, titleWidth, workerAlive);
    var d := DrawStep(h, now, titleWidth).0;
    StepsPreserveValid(h, now, 0.0, [], Null, events, titleWidth, workerAlive);
    StepsPreserveValid(d, now, 0.0, [], Null, events, titleWidth, workerAlive);
  }

  /** A turn of the run loop never starts a recording while a clip is being
      processed or a recording is already running. */
  lemma TickNeverStartsWhileBusy(s: IdentifierState, now: real, events: seq<Event>,
                                 titleWidth: int, workerAlive: bool)
    requires s.busy || s.recording
    ensures TickStep(s, now, events, titleWidth, workerAlive).0.recording == s.recording
    ensures TickStep(s, now, events, titleWidth, workerAlive).0.lastRecordTime == s.lastRecordTime
  {
  }

  /** A batch with `Quit` stops the loop before drawing, recording or polling. */
  lemma QuitEndsTick(s: IdentifierState, now: real, events: seq<Event>, titleWidth: int,
                     workerAlive: bool)
    requires Quit in events
    ensures !TickStep(s, now, events, titleWidth, workerAlive).1
    ensures TickStep(s, now, events, titleWidth, workerAlive).0 ==
      s.(mode := HandleBatch(s.mode, events).1)
  {
    RunningIffNoQuit(s.mode, events);
  }

  // ---- Drawing -----------------------------------------------------------

  /** The title is drawn exactly while a song with a non-zero stamp is stored
      and the fade has not reached alpha 0. */
  lemma TitleDrawnIff(s: IdentifierState, now: real, titleWidth: int)
    ensures DrawStep(s, now, titleWidth).1.Some? <==>
      && s.lastIdentified.Some? && s.lastSongTime.Some? && s.lastSongTime.value != 0.0
      && now - s.lastSongTime.value <= ShowDuration + 254.0 / 255.0
  {
    if s.lastSongTime.Some? {
      FadeVisibleIff(now - s.lastSongTime.value);
    }
  }

  // ---- The processing thread is never released (as written) --------------

  /** Polls at `now` with the worker's liveness given per poll. */
  function PollsAsWritten(s: IdentifierState, now: real, alive: seq<bool>): IdentifierState
    decreases |alive|
  {
    if alive == [] then s else PollsAsWritten(CheckStepAsWritten(s, now, alive[0]).0, now, alive[1..])
  }

  /** The same polls with the corrected release. */
  function Polls(s: IdentifierState, now: real, alive: seq<bool>): IdentifierState
    decreases |alive|
  {
    if alive == [] then s else Polls(CheckStep(s, now, alive[0]).0, now, alive[1..])
  }

  /** As written, polls of an empty queue change nothing, so a processing
      thread that was still alive when its result was taken stays registered. */
  lemma {:induction false} EmptyPollsChangeNothingAsWritten(s: IdentifierState, now: real, alive: seq<bool>)
    requires s.queue == []
    ensures PollsAsWritten(s, now, alive) == s
    decreases |alive|
  {
    if alive != [] {
      EmptyPollsChangeNothingAsWritten(s, now, alive[1..]);
    }
  }

  /** The input that shows it: the result is taken while the worker is still
      closing down, after which no number of polls, even with the worker
      finished, reopens the recording gate. */
  lemma AsWrittenGateStaysShut(s: IdentifierState, now: real, alive: seq<bool>, later: real)
    requires s.busy && s.queue == [None]
    ensures var stuck := PollsAsWritten(CheckStepAsWritten(s, now, true).0, now, alive);
      stuck.busy && !GateOpen(stuck, later)
  {
    EmptyPollsChangeNothingAsWritten(CheckStepAsWritten(s, now, true).0, now, alive);
  }

  /** Corrected: the first poll after the worker has finished releases it. */
  lemma {:induction false} FinishedWorkerReleased(s: IdentifierState, now: real, alive: seq<bool>)
    requires false in alive
    ensures !Polls(s, now, alive).busy
    decreases |alive|
  {
    if alive[0] {
      FinishedWorkerReleased(CheckStep(s, now, true).0, now, alive[1..]);
    } else {
      StaysReleased(CheckStep(s, now, false).0, now, alive[1..]);
    }
  }

  /** Once released, polls never set the flag again. */
  lemma {:induction false} StaysReleased(s: IdentifierState, now: real, alive: seq<bool>)
    requires !s.busy
    ensures !Polls(s, now, alive).busy
    decreases |alive|
  {
    if alive != [] {
      StaysReleased(CheckStep(s, now, alive[0]).0, now, alive[1..]);
    }
  }

  /** The correction changes nothing when a result is waiting. */
  lemma CorrectionOnlyAffectsEmptyPolls(s: IdentifierState, now: real, workerAlive: bool)
    requires s.queue != []
    ensures CheckStep(s, now, workerAlive) == CheckStepAsWritten(s, now, workerAlive)
  {
  }
}
