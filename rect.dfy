/** The mutable rectangle a mover owns: `generate_rec` fills a fresh one field
    by field, and every iteration of the mover loop moves it in place. */
module Rects {
  import opened Motion

  class Rect {
    var x: int
    var prevx: int
    var y: int
    var prevy: int
    var width: int
    var height: int
    var movx: int
    var movy: int
    /** Milliseconds to sleep between two steps. */
    var speed: int

    /** The current field values as a snapshot. */
    function State(): RectState
      reads this
    {
      RectState(x, prevx, y, prevy, width, height, movx, movy, speed)
    }

    /** `generate_rec`: each `draw...` argument is the raw `rand.Intn` result
        of the corresponding `randInt` call, in the order the source makes
        them. */
    constructor Generate(xres: int, yres: int,
                         drawWidth: int, drawX: int, drawY: int,
                         drawSpeed: int, drawMovX: int, drawMovY: int)
      requires 0 <= drawWidth < 30
      requires 0 <= drawX < xres - (20 + drawWidth)
      requires 0 <= drawY < yres - (20 + drawWidth)
      requires 0 <= drawSpeed < 40
      requires 0 <= drawMovX < 10 && 0 <= drawMovY < 10
      ensures width == height == 20 + drawWidth && 20 <= width < 50
      ensures prevx == UNSET && prevy == UNSET
      ensures x == drawX && y == drawY
      ensures 0 <= x < xres - width && 0 <= y < yres - height
      ensures speed == 10 + drawSpeed && 10 <= speed < 50
      ensures movx == (if drawMovX == 5 then 1 else drawMovX - 5)
      ensures movy == (if drawMovY == 5 then -1 else drawMovY - 5)
      ensures -5 <= movx <= 4 && movx != 0 && -5 <= movy <= 4 && movy != 0
      ensures xres >= 59 && yres >= 59 ==> Valid(State(), xres, yres)
    {
      var w := RandInt(20, 50, drawWidth);
      width := w;
      height := w;
      prevx := UNSET;
      prevy := UNSET;
      x := RandInt(0, xres - w, drawX);
      y := RandInt(0, yres - w, drawY);
      speed := RandInt(10, 50, drawSpeed);
      var mx := RandInt(0, 10, drawMovX) - 5;
      if mx == 0 {
        mx := 1;
      }
      movx := mx;
      var my := RandInt(0, 10, drawMovY) - 5;
      if my == 0 {
        my := -1;
      }
      movy := my;
    }

    /** One iteration of the mover loop after the renderer acknowledged:
        remember the position, reflect each velocity at the walls, move. */
    method Step(xres: int, yres: int)
      modifies this
      ensures State() == Advance(old(State()), xres, yres)
      ensures prevx == old(x) && prevy == old(y)
      ensures x == old(x) + movx && y == old(y) + movy
      ensures movx == old(movx) || movx == -old(movx)
      ensures movy == old(movy) || movy == -old(movy)
      ensures width == old(width) && height == old(height) && speed == old(speed)
      ensures old(Valid(State(), xres, yres)) ==> Valid(State(), xres, yres)
    {
      ghost var before := State();
      prevx := x;
      prevy := y;
      if x + movx + width > xres || x + movx <= 0 {
        movx := -movx;
      }
      if y + movy + height > yres || y + movy <= 0 {
        movy := -movy;
      }
      x := x + movx;
      y := y + movy;
      if Valid(before, xres, yres) {
        AdvanceKeepsValid(before, xres, yres);
      }
    }
  }
}
