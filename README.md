# Song identification state of the "now playing" display

A Dafny model of the core of `hello.py`, the `MusicIdentifier` application. It
records five-second clips from the microphone. Each clip goes to a recognition
service, and a newly identified title and artist are shown over the album art,
fading out after a few seconds. The model covers these parts:

- the identifier's state as a class, `Identifier.MusicIdentifier`, with the
  fields its methods update. Those fields are the last song and when it was
  identified, the recording flag, the "processing in flight" flag that stands
  for `processing_thread`, the run loop's `last_record_time`, the frames, the
  result queue, the fullscreen and stretch flags and the scroll clock;
- the operations that change that state: change detection on one recognition
  result, the recording gate and `start_recording`, the chunk loop of
  `record_audio`, the processing thread queueing its result, key handling and
  the two toggles, the state changes of `draw_window`, and one turn of the run
  loop;
- module `Session`, which holds the same state as a value with one function
  per operation. Every state-changing method of the class except the two
  toggles is proved to follow its function; the toggles state their
  one-field change directly. The lemmas there state what the operations
  promise. Module `Session`
  also holds the invariant that every step the run loop and the threads
  perform keeps (`start_recording` only through the gate): song and
  timestamp are stored together, and no recording runs while a clip is
  being processed;
- the pure rules:
  - normalising a recognition response (`Recognition`);
  - the fade alpha, the title's centring and scroll offset, and the outline
    offsets and their blit positions (`Display`);
  - the choice of input device (`Devices`);
  - the debug file-name cleaning (`Filenames`).

Threads are seen sequentially. The processing thread is a flag, and its
liveness is an input of the poll that checks it. The result queue is a
sequence consumed from the front. The audio stream is a trace of clock readings
and read outcomes. The clock is always a parameter, in seconds, as a `real`.

A recording is a five-second wall-clock window; there are no retries and no second source.

## Model

| member | source | states |
|---|---|---|
| Recognition.Normalise | hello.py:350-363 | A song is queued exactly for a dict with a non-empty dict under `track` whose `images`, if present, is a dict; anything else, falsy responses included, queues `None`. Title is `track.get('title', 'Unknown Title')`, artist is `subtitle` with default 'Unknown Artist', artwork is `images.coverart` or `None`. |
| Recognition.ResponseRoundTrip | hello.py:356-363 | Every song normalises back to itself from the response that reports it. |
| Recognition.MissingTrackIsNone | hello.py:350-354 | No response, an empty one, or one without a truthy `track` gives `None`. |
| Recognition.TrackDefaults | hello.py:359-363 | A track with none of the keys read gets 'Unknown Title', 'Unknown Artist' and no artwork. |
| Filenames.CleanFilename | hello.py:437-438 | Same length; each of `<>:"/\|?*` becomes '_'; every other character is kept; the result holds none of the nine. |
| Filenames.CleanFilenameKeepsClean | hello.py:437-438 | A name without forbidden characters is returned unchanged. |
| Filenames.CleanFilenameIdempotent | hello.py:437-438 | Cleaning twice equals cleaning once. |
| Filenames.CleanFilenameAppend | hello.py:437-440 | Cleaning distributes over concatenation. |
| Filenames.DebugFileBaseParts | hello.py:440 | The debug file base is the cleaned title, "_by_", the cleaned artist. |
| Display.FadeAlpha | hello.py:222-230 | Alpha lies in [0, 255]; it is 255 before 5 s and 0 from 6 s on. |
| Display.FadeAlphaNonIncreasing | hello.py:223-230 | Alpha never increases as the elapsed time grows. |
| Display.FadeVisibleIff | hello.py:223-232 | Alpha is positive, so the caption is drawn, exactly while elapsed <= 5 + 254/255 s. |
| Display.ScrollOffset | hello.py:157-167 | For a title wider than the space, the offset lies in [0, text_width - max_width]; it is 0 in the initial pause and exactly text_width - max_width in the final pause. |
| Display.ScrollOffsetNonDecreasing | hello.py:157-167 | Within one cycle the offset never decreases. |
| Display.HalfRoundedEven | hello.py:136-138 | The centring x is within half a pixel of (max_width - text_width) / 2, and a tie goes to the even value, as `round` does. |
| Display.Place | hello.py:136-167 | A title is centred exactly when it fits, at half the spare width rounded to the nearest pixel; a scrolled offset is within the overhang. |
| Display.RestartShowsStart | hello.py:148-159 | Once a full cycle has passed, the scroll clock restarts at `now` and the title shows from its start. |
| Display.OutlineOffsets | hello.py:108-113 | The outline offsets are exactly the integer points of the disc of radius `outline_width`, in the dx-then-dy order of the nested loops, without repeats. |
| Display.BlitPosition | hello.py:119-125 | Each outline copy is blitted at its offset shifted by `outline_width`, inside the enlarged surface. |
| Display.MainTextCentred | hello.py:124-128 | The main text goes where the copy for offset (0, 0) goes, and that offset is always in the outline. |
| Devices.FindInputDevice | hello.py:93-103 | The first device with positive `maxInputChannels`; `None`, where the application exits, only when no device has one. |
| Capture.Captured | hello.py:389-399 | One chunk per successful read, in order, while within RECORD_SECONDS and recording; it stops at the first failing or late read. |
| Capture.CaptureAppends | hello.py:392-395 | A successful read in the window moves one chunk from the trace to the frames. |
| Capture.CaptureStops | hello.py:392-399 | At the read where the loop stops, nothing more is captured. |
| Capture.NotRecordingCapturesNothing | hello.py:392 | With `recording` off nothing is read. |
| Capture.CapturedIgnoresLaterReads | hello.py:392-399 | Reads after the loop has stopped do not affect the frames. |
| Events.EscapeLeavesFullscreen | hello.py:529-530 | ESC turns fullscreen off and changes nothing in a window. |
| Events.RunningIffNoQuit | hello.py:519-531 | A batch returns "keep running" exactly when it holds no QUIT. |
| Events.QuitSkipsRest | hello.py:521-523 | QUIT returns False and the events after it are never handled. |
| Events.DoubleToggleCancels | hello.py:506-528 | Two 'f' presses, or two 's' presses, in a row restore the mode. |
| Events.StretchFollowsParity | hello.py:515-528 | Stretching ends flipped exactly when 's' was pressed an odd number of times before QUIT. |
| Events.FullscreenFollowsParity | hello.py:506-530 | Without ESC, fullscreen ends flipped exactly when 'f' was pressed an odd number of times before QUIT. |
| Session.NoneResultChangesNothing | hello.py:416-417 | A `None` result is dropped and leaves the stored song and timestamp as they were. |
| Session.SongResultRecordedIffNew | hello.py:417-428 | A song result replaces the stored one and sets its time to `now` exactly when nothing is stored or title or artist differ; otherwise only the queue moves on. |
| Session.ArtworkOnlyChangeIsNotNew | hello.py:421-425 | A result differing only in artwork is not a new song and keeps the old record. |
| Session.RepeatedResponseIsNotNew | hello.py:366-428 | The same response recognised twice: the second poll reports nothing new and keeps the first timestamp. |
| Session.GateStartsIff | hello.py:487-489 | A recording starts exactly when not recording, nothing is processing and RECORD_SECONDS have passed since the last start; then last_record_time becomes `now`. |
| Session.StartRecordingWhileRecording | hello.py:459-464 | `start_recording` while recording starts nothing and changes nothing. |
| Session.RecordHandsOffFrames | hello.py:389-411 | A recording resets the frames to what it captured, hands exactly that copy to processing, and ends with `recording` off. |
| Session.StepsPreserveValid | hello.py:413-489 | The result poll, the recording gate, `record_audio`, queueing a result, event handling and drawing each keep the invariant: song and time are set together, and no recording runs while processing. A bare `start_recording` is not covered (it would break the invariant while processing); the program reaches it only through the gate. |
| Session.TickPreservesValid | hello.py:476-492 | A whole turn of the run loop keeps the invariant. |
| Session.TickAsWrittenPreservesValid | hello.py:476-492 | The turn with the result poll as written keeps the invariant too. |
| Session.Initial | hello.py:48-85 | The state after `__init__` and the start of `run` satisfies the invariant: nothing stored, not recording, nothing processing, empty queue, the loop clock at the start time. |
| Session.Consume | hello.py:416-429 | Taking a result off the queue: the head is dropped, and the song is stored and stamped `now` exactly when the result is a song that is new against the stored one; otherwise only the queue changes. |
| Session.CheckStep | hello.py:413-455 | The corrected poll: the processing flag ends set exactly when it was set and the worker is alive; an empty queue changes nothing else; a reported new song is the queue's head, stamped `now`; otherwise the stored song and its stamp are kept. |
| Session.HandleStep | hello.py:519-531 | Handling a batch keeps running exactly when the batch holds no QUIT, and changes only the screen mode. |
| Session.CaptionAlpha | hello.py:218-230 | An alpha is computed exactly when a song is stored with a non-zero stamp; it lies in [0, 255] and is 255 within the first five seconds. |
| Session.CheckStepAsWritten | hello.py:413-455 | As written: an empty queue leaves the state as it is; otherwise the head is dropped, the processing flag stays set only while the worker is alive, and the stored song changes only to a new song result. |
| Session.StartRecordingStep | hello.py:457-464 | `recording` ends on; a thread starts exactly when it was off, and then `recording` is the only field that changes; when already recording nothing changes. |
| Session.GateStep | hello.py:486-489 | The gate fires exactly when `GateOpen` holds; it then sets `recording` and `last_record_time := now`, otherwise it changes nothing. |
| Session.RecordStep | hello.py:389-411 | `recording` ends off, processing is in flight, and the frames equal the clip handed on, at most one chunk per read; the queue and the stored song are untouched. |
| Session.FinishStep | hello.py:350-366 | The queue grows by exactly the normalised response, at its end, and nothing else about recording or processing changes. |
| Session.DrawStep | hello.py:217-232 | Drawing changes only the scroll clock, and only for a drawn scrolling title; a drawn title has alpha in (0, 255]. |
| Session.TickStep | hello.py:476-492 | The turn keeps running exactly without QUIT; on QUIT only the mode changes; frames are never touched. |
| Session.TickStepAsWritten | hello.py:476-492 | The same guarantees for the turn whose result poll is as written. |
| Events.OnKey | hello.py:524-530 | Only 's' flips stretching; fullscreen changes only on 'f' or ESC, and after ESC it is off. |
| Events.HandleBatch | hello.py:519-531 | A batch reporting "keep running" holds no QUIT; a batch starting with QUIT stops with the mode untouched. |
| Display.ScrollClock | hello.py:146-152 | The scroll clock restarts at `now` exactly when more than a full cycle has passed, and is otherwise kept; so at a draw the clock is never more than one cycle behind. |
| Filenames.DebugFileBase | hello.py:440 | The debug base is as long as title, "_by_" and artist together, carries "_by_" after the title, and holds no forbidden character. |
| Session.TickNeverStartsWhileBusy | hello.py:486-492 | A loop turn starts no recording while recording or processing. |
| Session.QuitEndsTick | hello.py:480-482 | On QUIT the loop stops before drawing, the gate and the result poll. |
| Session.TitleDrawnIff | hello.py:218-232 | The title is drawn exactly while a song with a non-zero timestamp is stored and alpha is still positive. |
| Session.EmptyPollsChangeNothingAsWritten | hello.py:451-455 | As written, a poll of an empty queue changes nothing, the processing flag included. |
| Session.AsWrittenGateStaysShut | hello.py:451-455 | As written, a result taken while the worker is still alive leaves the processing flag set for good, and the recording gate never opens again. |
| Session.FinishedWorkerReleased | hello.py:451-452 | Corrected: after any poll that sees the worker finished, the processing flag is clear. |
| Session.StaysReleased | hello.py:451-452 | Once clear, polls never set the processing flag again. |
| Session.CorrectionOnlyAffectsEmptyPolls | hello.py:416-452 | The correction agrees with the code on every poll that finds a result waiting. |
| Identifier.MusicIdentifier.constructor | hello.py:48-85 | The initial state: nothing identified, not recording, nothing processing, empty queue, windowed and unstretched, and the loop clock started. |
| Identifier.MusicIdentifier.CheckRecognitionResult | hello.py:413-455 | Follows `Session.CheckStep` and keeps the invariant. |
| Identifier.MusicIdentifier.StartRecording | hello.py:457-464 | Sets `recording`; reports a new thread only when it was off. |
| Identifier.MusicIdentifier.RecordingGate | hello.py:486-489 | Follows `Session.GateStep`. |
| Identifier.MusicIdentifier.RecordAudio | hello.py:389-411 | Its loop appends chunk by chunk; `frames` ends equal to `Capture.Captured`, the clip handed on equals `frames`, and `recording` ends off. |
| Identifier.MusicIdentifier.FinishProcessing | hello.py:350-366 | Appends the normalised response to the result queue. |
| Identifier.MusicIdentifier.ToggleFullscreen | hello.py:506-508 | Flips `is_fullscreen`. |
| Identifier.MusicIdentifier.ToggleStretchMode | hello.py:515-517 | Flips `is_stretched`. |
| Identifier.MusicIdentifier.HandleEvents | hello.py:519-531 | Its loop over the batch gives the result and mode of `Events.HandleBatch`. |
| Identifier.MusicIdentifier.DrawWindow | hello.py:217-232 | Follows `Session.DrawStep`; the scroll clock moves only when a scrolling title is drawn. |
| Identifier.MusicIdentifier.RunTick | hello.py:476-492 | One loop turn: events, drawing, gate, result poll, as `Session.TickStep`. |

## Findings

| source | as written | input that shows it | evidently intended | confidence | as-written member | corrected member |
|---|---|---|---|---|---|---|
| hello.py:451-455 | `processing_thread` is released only inside the `try` after `get_nowait()`. A poll of an empty queue raises `Empty` and skips the release. | The worker puts its result and is still inside `loop.close()` when the main loop takes it, so the liveness check sees it alive. Every later poll finds the queue empty, even once the worker has ended. `processing_thread` then stays set, and the gate at hello.py:487 never opens again. | A finished processing thread is released on every poll, so recording resumes. | medium (a thread race), not executed | Session.AsWrittenGateStaysShut | Session.FinishedWorkerReleased |

## Left out

- Identifier.MusicIdentifier.RunTick: its result poll is the corrected one, so on a turn with an empty queue, the processing flag set and the worker finished it clears the flag, where hello.py:416 and 451-455 keep `processing_thread` set. The turn as written is `Session.TickStepAsWritten`.
- Session.CheckStep: on a poll of an empty queue it still clears the processing flag of a finished worker, where hello.py:416 and 451-455 skip the release; `Session.CheckStepAsWritten` is the poll as written.
- Session.TickStep: the same difference as RunTick; `Session.TickStepAsWritten` is the program's turn.
- Identifier.MusicIdentifier.RecordAudio: does not model an exception from opening the stream (hello.py:380-387) or from stopping and closing it (hello.py:401-402). Such an exception ends the recording thread before hello.py:405-411, so `recording` stays on, no processing starts, and the gate at hello.py:487 never opens again; the model always reaches `recording := false`.
- Session.RecordStep: the same exception path is not modelled; the step always ends with `recording` off and processing in flight, where the program would leave `recording` on and start no processing.
- Capture.Captured: the trace is taken to cover the whole recording. A trace that ends while the window is still open is read as the stream's end, an exit the program's loop does not have.
- Identifier.MusicIdentifier.CheckRecognitionResult: follows the corrected release of the processing flag (see Findings). The code as written is `Session.CheckStepAsWritten`. The two differ only on polls of an empty queue.
- The recognition call itself: it goes over the network. Its output is an arbitrary JSON-shaped `Value` given to `FinishProcessing`.
- The float32 to int16 conversion and the WAV export of the clip: these are float casts and library encoders.
- Album-art download and `display_album_art`: HTTP and image I/O. The `newSong` result of `CheckRecognitionResult` marks where it is called.
- All drawing: surfaces, fonts, blits, `set_mode` and the artist caption's layout. The rendered title width is an input, and only the offsets and alpha are modelled.
- Threads and `Queue`: they run concurrently, and the model is sequential. The processing flag stands for the thread, and its liveness is an input. `recording` cannot change during the capture loop in this view, since nothing but `record_audio` clears it.
- The clock and `time.sleep`: time is a parameter. `draw_window` (hello.py:219), `draw_scrolling_text` (hello.py:146) and `check_recognition_result` (hello.py:428) each read the clock again during a turn; the model uses the turn's `now` for all of them.
- Floating point: times and the fade and scroll formulas use exact reals, so float rounding is not modelled.
- Python equality across types (`1 == True`, `1 == 1.0`): the model compares values structurally, and numbers are integers.
- Filenames.DebugFileBase: only for string titles and artists; formatting other values through an f-string is not modelled. The timestamp suffix and the file write are left out.
- Devices.FindInputDevice: assumes every device reports `maxInputChannels`. A missing key would make the comparison raise, and that is not modelled.
- Debug logging, the debug-directory setup, argparse and `sys.exit`, and everything in memory_monitor.py (process introspection and logging).
