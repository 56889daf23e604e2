/** Key and window events (`handle_events`, `toggle_fullscreen`,
    `toggle_stretch_mode`, hello.py). The calls into the display library
    that switch the window are not modelled; the two flags are. */
module Events {

  datatype Key = KeyF | KeyS | KeyEscape | OtherKey(code: int)

  datatype Event = Quit | KeyDown(key: Key) | OtherEvent(kind: int)

  /** `is_fullscreen` and `is_stretched`. */
  datatype ScreenMode = ScreenMode(fullscreen: bool, stretched: bool)

  /** The effect of one key press: 'f' and 's' flip their flag, ESC leaves
      fullscreen and does nothing in a window. */
  function OnKey(m: ScreenMode, k: Key): (r: ScreenMode)
    ensures r.stretched == (m.stretched != (k == KeyS))
    ensures k != KeyF && k != KeyEscape ==> r.fullscreen == m.fullscreen
    ensures k == KeyEscape ==> !r.fullscreen
  {
    match k
    case KeyF => m.(fullscreen := !m.fullscreen)
    case KeyS => m.(stretched := !m.stretched)
    case KeyEscape => if m.fullscreen then m.(fullscreen := false) else m
    case OtherKey(_) => m
  }

  /** One batch of events from `pygame.event.get()`: whether the loop keeps
      running, and the mode afterwards. `Quit` ends the batch at once. */
  function HandleBatch(m: ScreenMode, events: seq<Event>): (r: (bool, ScreenMode))
    ensures r.0 ==> Quit !in events
    ensures events != [] && events[0] == Quit ==> r == (false, m)
    decreases |events|
  {
    if events == [] then (true, m)
    else match events[0]
      case Quit => (false, m)
      case KeyDown(k) => HandleBatch(OnKey(m, k), events[1..])
      case OtherEvent(_) => HandleBatch(m, events[1..])
  }

  /** ESC only ever leaves fullscreen, and never touches stretching. */
  lemma EscapeLeavesFullscreen(m: ScreenMode)
    ensures !m.fullscreen ==> OnKey(m, KeyEscape) == m
    ensures m.fullscreen ==> OnKey(m, KeyEscape) == ScreenMode(false, m.stretched)
  {
  }

  /** The loop keeps running exactly when the batch holds no `Quit`. */
  lemma {:induction false} RunningIffNoQuit(m: ScreenMode, events: seq<Event>)
    ensures HandleBatch(m, events).0 <==> Quit !in events
    decreases |events|
  {
    if events != [] && events[0] != Quit {
      assert events == [events[0]] + events[1..];
      match events[0]
      case KeyDown(k) => RunningIffNoQuit(OnKey(m, k), events[1..]);
      case OtherEvent(_) => RunningIffNoQuit(m, events[1..]);
    }
  }

  /** Events after the first `Quit` are never looked at. */
  lemma {:induction false} QuitSkipsRest(m: ScreenMode, before: seq<Event>, after: seq<Event>)
    requires Quit !in before
    ensures HandleBatch(m, before + [Quit] + after) == (false, HandleBatch(m, before).1)
    decreases |before|
  {
    if before != [] {
      assert (before + [Quit] + after)[1..] == before[1..] + [Quit] + after;
      match before[0]
      case KeyDown(k) => QuitSkipsRest(OnKey(m, k), before[1..], after);
      case OtherEvent(_) => QuitSkipsRest(m, before[1..], after);
    } else {
      assert before + [Quit] + after == [Quit] + after;
    }
  }

  /** Pressing 'f' twice, or 's' twice, in a row changes nothing. */
  lemma {:induction false} DoubleToggleCancels(m: ScreenMode, before: seq<Event>,
                                               k: Key, after: seq<Event>)
    requires k == KeyF || k == KeyS
    requires Quit !in before
    ensures HandleBatch(m, before + [KeyDown(k), KeyDown(k)] + after) == HandleBatch(m, before + after)
    decreases |before|
  {
    if before == [] {
      assert before + [KeyDown(k), KeyDown(k)] + after == [KeyDown(k)] + ([KeyDown(k)] + after);
      assert ([KeyDown(k)] + after)[1..] == after;
      assert before + after == after;
    } else {
      assert (before + [KeyDown(k), KeyDown(k)] + after)[1..] ==
             before[1..] + [KeyDown(k), KeyDown(k)] + after;
      assert (before + after)[1..] == before[1..] + after;
      match before[0]
      case KeyDown(k0) => DoubleToggleCancels(OnKey(m, k0), before[1..], k, after);
      case OtherEvent(_) => DoubleToggleCancels(m, before[1..], k, after);
    }
  }

  /** Number of presses of `k` before the first `Quit`. */
  function Presses(events: seq<Event>, k: Key): nat {
    if events == [] || events[0] == Quit then 0
    else (if events[0] == KeyDown(k) then 1 else 0) + Presses(events[1..], k)
  }

  /** Stretching ends flipped exactly when 's' was pressed an odd number of times. */
  lemma {:induction false} StretchFollowsParity(m: ScreenMode, events: seq<Event>)
    ensures HandleBatch(m, events).1.stretched == (m.stretched != (Presses(events, KeyS) % 2 == 1))
    decreases |events|
  {
    if events != [] && events[0] != Quit {
      match events[0]
      case KeyDown(k) => StretchFollowsParity(OnKey(m, k), events[1..]);
      case OtherEvent(_) => StretchFollowsParity(m, events[1..]);
    }
  }

  /** Without ESC in the batch, fullscreen likewise follows the parity of 'f'. */
  lemma {:induction false} FullscreenFollowsParity(m: ScreenMode, events: seq<Event>)
    requires KeyDown(KeyEscape) !in events
    ensures HandleBatch(m, events).1.fullscreen == (m.fullscreen != (Presses(events, KeyF) % 2 == 1))
    decreases |events|
  {
    if events != [] && events[0] != Quit {
      assert events == [events[0]] + events[1..];
      match events[0]
      case KeyDown(k) => FullscreenFollowsParity(OnKey(m, k), events[1..]);
      case OtherEvent(_) => FullscreenFollowsParity(m, events[1..]);
    }
  }
}
