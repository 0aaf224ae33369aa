/**
 * Selection and scroll arithmetic of the scrollable lists. The favourites list and the
 * yield list move their cursor with the same code, and the logs, markets and trades panels
 * clamp their scroll offset with the same expression; each is defined once here.
 */
module ListWindow {
  import opened Text

  /** A selected row and the first visible row. */
  datatype Cursor = Cursor(selected: nat, scroll: nat)

  /** The selected row is on screen in a viewport of `height` rows. */
  predicate InView(c: Cursor, height: nat) {
    c.scroll <= c.selected < c.scroll + height
  }

  /** `move_up`: step to the previous row (if any), scrolling up to keep it visible. */
  function Up(c: Cursor): (r: Cursor)
    ensures c.selected > 0 ==> r.selected == c.selected - 1
    ensures c.selected == 0 ==> r == c
    ensures r.scroll <= c.scroll
    ensures c.selected > 0 ==> r.scroll <= r.selected
    ensures forall h: nat :: InView(c, h) ==> InView(r, h)
  {
    if c.selected > 0 then
      var s := c.selected - 1;
      Cursor(s, if s < c.scroll then s else c.scroll)
    else c
  }

  /** `move_down`: step to the next of `len` rows (if any), scrolling down to keep it visible. */
  function Down(c: Cursor, len: nat, height: nat): (r: Cursor)
    ensures c.selected + 1 < len ==> r.selected == c.selected + 1
    ensures c.selected + 1 >= len ==> r == c
    ensures c.selected < len ==> r.selected < len
    ensures r.scroll >= c.scroll
    ensures c.selected + 1 < len && height >= 1 ==> r.selected < r.scroll + height
    ensures height >= 1 && InView(c, height) ==> InView(r, height)
  {
    if c.selected + 1 < len then
      var s := c.selected + 1;
      Cursor(s, if s >= c.scroll + height then s - height + 1 else c.scroll)
    else c
  }

  /**
   * The clamp `scroll.min(total.saturating_sub(visible.max(1)))`: the offset never leaves
   * fewer than `max(visible, 1)` rows below it, unless there are fewer rows than that.
   */
  function ClampScroll(scroll: nat, total: nat, visible: nat): (r: nat)
    ensures r <= scroll
    ensures r <= total
    ensures total >= Max(visible, 1) ==> r + Max(visible, 1) <= total
    ensures total < Max(visible, 1) ==> r == 0
    ensures scroll + Max(visible, 1) <= total ==> r == scroll
    ensures total >= Max(visible, 1) && scroll + Max(visible, 1) > total ==> r == total - Max(visible, 1)
  {
    Min(scroll, SatSub(total, Max(visible, 1)))
  }

  /** `iter().skip(start).take(count)`: the rows shown from `start`. */
  function Window<T>(s: seq<T>, start: nat, count: nat): (r: seq<T>)
    ensures |r| == Min(count, SatSub(|s|, start))
    ensures forall i | 0 <= i < |r| :: r[i] == s[start + i]
  {
    if start >= |s| then []
    else if |s| - start <= count then s[start..]
    else s[start..start + count]
  }
}
