/** The arithmetic of the display: the fade of the song caption
    (`draw_window`), the placement and scrolling of the title
    (`draw_scrolling_text`) and the outline offsets of
    `render_text_with_outline` (hello.py). Surfaces, fonts and blits are not
    modelled; only the numbers they are given are. */
module Display {

  /** Seconds the caption stays fully visible, then seconds it takes to fade out. */
  const ShowDuration: real := 5.0
  const FadeDuration: real := 1.0

  /** Pause at each end of a scroll, in seconds, and scroll speed in pixels per second. */
  const ScrollPause: real := 2.0
  const ScrollSpeed: real := 100.0

  /** `int(self.screen_width * 0.8)` for the 800-pixel-wide window. */
  const MaxTitleWidth: int := 640

  /** Caption alpha `elapsed` seconds after the song was identified. Python's
      `int()` truncates toward zero; its argument is positive here, so that is
      the floor. */
  function FadeAlpha(elapsed: real): (alpha: int)
    ensures 0 <= alpha <= 255
    ensures elapsed < ShowDuration ==> alpha == 255
    ensures elapsed >= ShowDuration + FadeDuration ==> alpha == 0
  {
    if elapsed < ShowDuration then 255
    else if elapsed < ShowDuration + FadeDuration then
      (255.0 * (1.0 - (elapsed - ShowDuration) / FadeDuration)).Floor
    else 0
  }

  /** The caption never becomes more opaque as time passes. */
  lemma FadeAlphaNonIncreasing(e1: real, e2: real)
    requires e1 <= e2
    ensures FadeAlpha(e2) <= FadeAlpha(e1)
  {
    if ShowDuration <= e1 && e2 < ShowDuration + FadeDuration {
      var x1 := 255.0 * (1.0 - (e1 - ShowDuration) / FadeDuration);
      var x2 := 255.0 * (1.0 - (e2 - ShowDuration) / FadeDuration);
      assert x2 <= x1;
    }
  }

  /** The caption is drawn (alpha > 0) exactly until 254/255 of the fade has passed. */
  lemma FadeVisibleIff(elapsed: real)
    ensures FadeAlpha(elapsed) > 0 <==> elapsed <= ShowDuration + 254.0 / 255.0
  {
    if ShowDuration <= elapsed < ShowDuration + FadeDuration {
      var x := 255.0 * (1.0 - (elapsed - ShowDuration) / FadeDuration);
      assert x == 255.0 * (ShowDuration + 1.0 - elapsed);
      assert FadeAlpha(elapsed) > 0 <==> x >= 1.0;
    }
  }

  /** One full scroll cycle, `text_width / SCROLL_SPEED + SCROLL_PAUSE * 2`. */
  function TotalScrollTime(textWidth: int): real {
    textWidth as real / ScrollSpeed + ScrollPause * 2.0
  }

  /** Horizontal offset of a title wider than `maxWidth`, `elapsed` seconds
      into the scroll cycle. */
  function ScrollOffset(elapsed: real, textWidth: int, maxWidth: int): (x: int)
    requires textWidth > maxWidth
    ensures 0 <= x <= textWidth - maxWidth
    ensures elapsed < ScrollPause ==> x == 0
    ensures ScrollPause <= elapsed && elapsed > TotalScrollTime(textWidth) - ScrollPause ==>
      x == textWidth - maxWidth
  {
    if elapsed < ScrollPause then 0
    else if elapsed > TotalScrollTime(textWidth) - ScrollPause then textWidth - maxWidth
    else
      var scrolled := ((elapsed - ScrollPause) * ScrollSpeed).Floor;
      if scrolled < textWidth - maxWidth then scrolled else textWidth - maxWidth
  }

  /** Within a cycle the title only ever moves one way. */
  lemma ScrollOffsetNonDecreasing(e1: real, e2: real, textWidth: int, maxWidth: int)
    requires textWidth > maxWidth
    requires e1 <= e2
    ensures ScrollOffset(e1, textWidth, maxWidth) <= ScrollOffset(e2, textWidth, maxWidth)
  {
    var mid1 := ScrollPause <= e1 <= TotalScrollTime(textWidth) - ScrollPause;
    var mid2 := ScrollPause <= e2 <= TotalScrollTime(textWidth) - ScrollPause;
    if mid1 && mid2 {
      assert (e1 - ScrollPause) * ScrollSpeed <= (e2 - ScrollPause) * ScrollSpeed;
    }
  }

  /** `round(d / 2)` with Python's rounding of halves to the even neighbour. */
  function HalfRoundedEven(d: int): (x: int)
    ensures 2 * x - 1 <= d <= 2 * x + 1
    ensures 2 * x != d ==> x % 2 == 0
  {
    if d % 2 == 0 then d / 2
    else if (d / 2) % 2 == 0 then d / 2
    else d / 2 + 1
  }

  /** Where the title goes: centred at `x` when it fits, else scrolled by `offset`. */
  datatype Placement = Centered(x: int) | Scrolled(offset: int)

  /** The scroll clock after a draw at `now`: it restarts once a whole cycle has gone by. */
  function ScrollClock(start: real, now: real, textWidth: int): (clock: real)
    ensures now - start > TotalScrollTime(textWidth) ==> clock == now
    ensures now - start <= TotalScrollTime(textWidth) ==> clock == start
    ensures textWidth >= 0 ==> now - clock <= TotalScrollTime(textWidth)
  {
    if now - start > TotalScrollTime(textWidth) then now else start
  }

  /** The placement of a title `textWidth` pixels wide, drawn at `now` with
      the scroll clock started at `start`. */
  function Place(start: real, now: real, textWidth: int, maxWidth: int): (p: Placement)
    ensures textWidth <= maxWidth <==> p.Centered?
    ensures p.Scrolled? ==> 0 <= p.offset <= textWidth - maxWidth
    ensures p.Centered? ==> 2 * p.x - 1 <= maxWidth - textWidth <= 2 * p.x + 1
  {
    if textWidth <= maxWidth then Centered(HalfRoundedEven(maxWidth - textWidth))
    else
      var elapsed := if now - start > TotalScrollTime(textWidth) then 0.0 else now - start;
      Scrolled(ScrollOffset(elapsed, textWidth, maxWidth))
  }

  /** A scroll whose cycle has just restarted shows the start of the title. */
  lemma RestartShowsStart(start: real, now: real, textWidth: int, maxWidth: int)
    requires textWidth > maxWidth
    requires now - start > TotalScrollTime(textWidth)
    ensures ScrollClock(start, now, textWidth) == now
    ensures Place(start, now, textWidth, maxWidth) == Scrolled(0)
  {
  }

  /** Offset (dx, dy) lies on the disc of radius `w`, the outline's shape. */
  predicate InOutline(p: (int, int), w: int) {
    -w <= p.0 <= w && -w <= p.1 <= w && p.0 * p.0 + p.1 * p.1 <= w * w
  }

  /** The order in which the nested `dx`, `dy` loops visit offsets. */
  predicate Before(p: (int, int), q: (int, int)) {
    p.0 < q.0 || (p.0 == q.0 && p.1 < q.1)
  }

  /** The offsets at which the outline copies of the text are rendered, in
      the order the nested loops of `render_text_with_outline` build them. */
  method OutlineOffsets(w: int) returns (offsets: seq<(int, int)>)
    ensures forall p :: p in offsets <==> InOutline(p, w)
    ensures forall i, j :: 0 <= i < j < |offsets| ==> Before(offsets[i], offsets[j])
  {
    offsets := [];
    var dx := -w;
    while dx < w + 1
      invariant -w <= dx
      invariant w >= 0 ==> dx <= w + 1
      invariant forall p :: p in offsets <==> InOutline(p, w) && p.0 < dx
      invariant forall i, j :: 0 <= i < j < |offsets| ==> Before(offsets[i], offsets[j])
      invariant forall i :: 0 <= i < |offsets| ==> offsets[i].0 < dx
    {
      var dy := -w;
      while dy < w + 1
        invariant -w <= dy <= w + 1
        invariant forall p :: p in offsets <==>
          InOutline(p, w) && (p.0 < dx || (p.0 == dx && p.1 < dy))
        invariant forall i, j :: 0 <= i < j < |offsets| ==> Before(offsets[i], offsets[j])
        invariant forall i :: 0 <= i < |offsets| ==> Before(offsets[i], (dx, dy))
      {
        if dx * dx + dy * dy <= w * w {
          offsets := offsets + [(dx, dy)];
        }
        dy := dy + 1;
      }
      dx := dx + 1;
    }
  }

  /** Where the outline copy for `offset` is blitted on the final surface,
      which is `2 * w` pixels wider and taller than the text. */
  function BlitPosition(offset: (int, int), w: int): (pos: (int, int))
    ensures InOutline(offset, w) ==> 0 <= pos.0 <= 2 * w && 0 <= pos.1 <= 2 * w
    ensures pos.0 - offset.0 == pos.1 - offset.1 == w
  {
    (offset.0 + w, offset.1 + w)
  }

  /** The main text sits where the outline copy for offset (0, 0) does, and
      that offset is part of every outline of non-negative width. */
  lemma MainTextCentred(w: int)
    requires w >= 0
    ensures InOutline((0, 0), w) && BlitPosition((0, 0), w) == (w, w)
  {
  }
}
