/** The renderer's per-request draw decision. Each X11 `PolyRectangle` call
    becomes a `DrawCommand` value, so a served request is the sequence of
    commands it issues. */
module Renderer {
  import opened Motion
  import opened Rects

  /** The two graphic contexts: black to draw, white to erase. */
  datatype Style = Foreground | Background

  /** One entry of the `xgb.Rectangle` slice handed to `PolyRectangle`. */
  datatype Box = Box(x: int, y: int, width: int, height: int)

  datatype DrawCommand = PolyRectangle(gc: Style, rect: Box)

  /** The box a rectangle occupies at its current position. */
  function Footprint(s: RectState): Box {
    Box(s.x, s.y, s.width, s.height)
  }

  /** The box a rectangle occupied at its previous position. */
  function PrevFootprint(s: RectState): Box {
    Box(s.prevx, s.prevy, s.width, s.height)
  }

  /** The renderer erases only when both previous coordinates are set. */
  predicate Erases(s: RectState) {
    s.prevx >= 0 && s.prevy >= 0
  }

  /** The commands issued for one request: an optional erase at the previous
      position, then the draw at the current position. */
  function Frame(s: RectState): seq<DrawCommand> {
    (if Erases(s) then [PolyRectangle(Background, PrevFootprint(s))] else [])
      + [PolyRectangle(Foreground, Footprint(s))]
  }

  /** The concatenated commands of a sequence of requests, served in order. */
  function Frames(ss: seq<RectState>): seq<DrawCommand> {
    if ss == [] then [] else Frames(ss[..|ss| - 1]) + Frame(ss[|ss| - 1])
  }

  /** Number of commands that use the given graphic context. */
  function CountStyle(cmds: seq<DrawCommand>, gc: Style): (n: nat)
    ensures n <= |cmds|
  {
    if cmds == [] then 0
    else CountStyle(cmds[..|cmds| - 1], gc) + (if cmds[|cmds| - 1].gc == gc then 1 else 0)
  }

  lemma {:induction false} CountStyleAppend(a: seq<DrawCommand>, b: seq<DrawCommand>, gc: Style)
    ensures CountStyle(a + b, gc) == CountStyle(a, gc) + CountStyle(b, gc)
    decreases |b|
  {
    if b == [] {
      assert a + b == a;
    } else {
      var b' := b[..|b| - 1];
      assert (a + b)[..|a + b| - 1] == a + b';
      CountStyleAppend(a, b', gc);
    }
  }

  /** One request yields exactly one foreground draw, at the current
      position and last; and a background erase at the previous position,
      first, exactly when both previous coordinates are non-negative. */
  lemma FrameContents(s: RectState)
    ensures CountStyle(Frame(s), Foreground) == 1
    ensures CountStyle(Frame(s), Background) == (if Erases(s) then 1 else 0)
    ensures |Frame(s)| == (if Erases(s) then 2 else 1)
    ensures Frame(s)[|Frame(s)| - 1] == PolyRectangle(Foreground, Footprint(s))
    ensures Erases(s) ==> Frame(s)[0] == PolyRectangle(Background, PrevFootprint(s))
  {
    // Frame is at most the erase followed by the draw, and CountStyle of a
    // one- or two-element sequence unfolds directly.
  }

  /** A rectangle that was never drawn yields the single draw command. */
  lemma UnsetDrawsOnce(s: RectState)
    requires Unset(s)
    ensures Frame(s) == [PolyRectangle(Foreground, Footprint(s))]
  {
  }

  /** Every request served yields exactly one foreground draw, whatever the
      order and number of requests. */
  lemma {:induction false} FramesDrawEachOnce(ss: seq<RectState>)
    ensures CountStyle(Frames(ss), Foreground) == |ss|
  {
    if ss != [] {
      var init := ss[..|ss| - 1];
      FramesDrawEachOnce(init);
      FrameContents(ss[|ss| - 1]);
      CountStyleAppend(Frames(init), Frame(ss[|ss| - 1]), Foreground);
    }
  }

  predicate BoxInside(b: Box, xres: int, yres: int) {
    Inside(b.x, b.y, b.width, b.height, xres, yres)
  }

  /** Every command issued for a valid rectangle lies on the surface and has
      the rectangle's size. */
  lemma FrameInside(s: RectState, xres: int, yres: int)
    requires Valid(s, xres, yres)
    ensures forall i :: 0 <= i < |Frame(s)| ==>
      BoxInside(Frame(s)[i].rect, xres, yres) && Frame(s)[i].rect.width == s.width &&
      Frame(s)[i].rect.height == s.height
  {
  }

  predicate FitsInt16(n: int) {
    -0x8000 <= n < 0x8000
  }

  predicate FitsUint16(n: int) {
    0 <= n < 0x1_0000
  }

  /** On the demo's 2048 x 1400 window the `int16` and `uint16` conversions
      the renderer applies to coordinates and sizes are exact. */
  lemma FrameFitsWire(s: RectState)
    requires Valid(s, XRES, YRES)
    ensures forall i :: 0 <= i < |Frame(s)| ==>
      var b := Frame(s)[i].rect;
      FitsInt16(b.x) && FitsInt16(b.y) && FitsUint16(b.width) && FitsUint16(b.height)
  {
  }

  /** One iteration of the renderer loop for the received rectangle `rec`,
      reusing a one-element rectangle buffer as the source does. It reads
      `rec` and changes nothing. */
  method Render(rec: Rect) returns (cmds: seq<DrawCommand>)
    ensures cmds == Frame(rec.State())
  {
    var buffer := Box(0, 0, 0, 0);
    buffer := buffer.(width := rec.width, height := rec.height);
    cmds := [];
    if rec.prevx >= 0 && rec.prevy >= 0 {
      buffer := buffer.(x := rec.prevx, y := rec.prevy);
      cmds := cmds + [PolyRectangle(Background, buffer)];
    }
    buffer := buffer.(x := rec.x, y := rec.y);
    cmds := cmds + [PolyRectangle(Foreground, buffer)];
  }
}
