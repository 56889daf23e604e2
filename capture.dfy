/** The chunk-accumulation loop of `record_audio` (hello.py). The input
    stream is given as the trace of what the loop observes: before each read,
    the clock reading the loop condition compares with the start time, and
    then what `stream.read` returned. */
module Capture {

  /** One block of raw samples as `stream.read` returns it. */
  type Chunk = seq<bv8>

  /** `RECORD_SECONDS`. */
  const RecordSeconds: real := 5.0

  datatype ReadOutcome = Data(chunk: Chunk) | ReadError

  /** One turn of the loop: `at` is `time.time()` in the loop condition. */
  datatype Read = Read(at: real, outcome: ReadOutcome)

  /** True when the loop condition lets the read of `r` happen. */
  predicate InWindow(start: real, recording: bool, r: Read) {
    r.at - start < RecordSeconds && recording
  }

  /** The frames collected by one recording: one chunk per successful read,
      up to the first read that fails or falls outside the window, or the
      end of the trace. */
  function Captured(start: real, recording: bool, trace: seq<Read>): (chunks: seq<Chunk>)
    ensures |chunks| <= |trace|
    ensures forall i :: 0 <= i < |chunks| ==>
      InWindow(start, recording, trace[i]) && trace[i].outcome == Data(chunks[i])
    ensures |chunks| < |trace| ==>
      !InWindow(start, recording, trace[|chunks|]) || trace[|chunks|].outcome == ReadError
  {
    if trace == [] || !InWindow(start, recording, trace[0]) then []
    else match trace[0].outcome
      case ReadError => []
      case Data(c) => [c] + Captured(start, recording, trace[1..])
  }

  /** One turn of the capture loop that reads a chunk: it moves from the
      trace to the frames collected so far. */
  lemma CaptureAppends(start: real, recording: bool, trace: seq<Read>, i: nat, frames: seq<Chunk>)
    requires i < |trace| && InWindow(start, recording, trace[i]) && trace[i].outcome.Data?
    ensures frames + Captured(start, recording, trace[i..]) ==
            (frames + [trace[i].outcome.chunk]) + Captured(start, recording, trace[i + 1..])
  {
    assert trace[i..][1..] == trace[i + 1..];
  }

  /** The turn at which the capture loop stops adds nothing more. */
  lemma CaptureStops(start: real, recording: bool, trace: seq<Read>, i: nat, frames: seq<Chunk>)
    requires i <= |trace|
    requires i == |trace| || !InWindow(start, recording, trace[i]) || trace[i].outcome == ReadError
    ensures frames + Captured(start, recording, trace[i..]) == frames
  {
  }

  /** Nothing is captured when the window is already closed at entry. */
  lemma NotRecordingCapturesNothing(start: real, trace: seq<Read>)
    ensures Captured(start, false, trace) == []
  {
  }

  /** Reads beyond the point where capture stopped do not matter. */
  lemma {:induction false} CapturedIgnoresLaterReads(start: real, recording: bool,
                                                     trace: seq<Read>, more: seq<Read>)
    requires |Captured(start, recording, trace)| < |trace|
    ensures Captured(start, recording, trace + more) == Captured(start, recording, trace)
  {
    if InWindow(start, recording, trace[0]) && trace[0].outcome.Data? {
      assert (trace + more)[1..] == trace[1..] + more;
      CapturedIgnoresLaterReads(start, recording, trace[1..], more);
    }
  }
}
