/** One mover and the renderer, run in lock step. In the program a mover
    hands its rectangle to the renderer, waits for the acknowledgment, sleeps
    and steps, forever; seen from one rectangle that is "render, then step",
    repeated. The infinite loop becomes any number `n` of iterations. */
module Animation {
  import opened Motion
  import opened Rects
  import opened Renderer

  /** The state after `n` steps. */
  function Steps(s: RectState, n: nat, xres: int, yres: int): RectState
    decreases n
  {
    if n == 0 then s else Advance(Steps(s, n - 1, xres, yres), xres, yres)
  }

  /** The states the renderer is handed in the first `n` iterations. */
  function History(s: RectState, n: nat, xres: int, yres: int): (h: seq<RectState>)
    ensures |h| == n
    ensures forall k :: 0 <= k < n ==> h[k] == Steps(s, k, xres, yres)
    decreases n
  {
    if n == 0 then [] else History(s, n - 1, xres, yres) + [Steps(s, n - 1, xres, yres)]
  }

  /** The commands issued for one rectangle in the first `n` iterations. */
  function Trace(s: RectState, n: nat, xres: int, yres: int): seq<DrawCommand> {
    Frames(History(s, n, xres, yres))
  }

  lemma TraceExtend(s: RectState, n: nat, xres: int, yres: int)
    ensures Trace(s, n + 1, xres, yres) == Trace(s, n, xres, yres) + Frame(Steps(s, n, xres, yres))
  {
    var h := History(s, n + 1, xres, yres);
    assert h[..n] == History(s, n, xres, yres);
  }

  /** Any number of steps keeps a valid rectangle valid, and never changes
      its size, its pacing or the magnitude of its velocities. */
  lemma {:induction false} StepsKeepValid(s: RectState, n: nat, xres: int, yres: int)
    requires Valid(s, xres, yres)
    ensures Valid(Steps(s, n, xres, yres), xres, yres)
    ensures Steps(s, n, xres, yres).width == s.width
    ensures Steps(s, n, xres, yres).height == s.height
    ensures Steps(s, n, xres, yres).speed == s.speed
    ensures Abs(Steps(s, n, xres, yres).movx) == Abs(s.movx)
    ensures Abs(Steps(s, n, xres, yres).movy) == Abs(s.movy)
  {
    if n > 0 {
      StepsKeepValid(s, n - 1, xres, yres);
      AdvanceKeepsValid(Steps(s, n - 1, xres, yres), xres, yres);
    }
  }

  /** From the second iteration on, the renderer erases exactly the box it
      drew in the iteration before, then draws the new one. */
  lemma EraseFollowsDraw(s: RectState, k: nat, xres: int, yres: int)
    requires Valid(s, xres, yres)
    requires k >= 1
    ensures Frame(Steps(s, k, xres, yres)) ==
      [PolyRectangle(Background, Footprint(Steps(s, k - 1, xres, yres))),
       PolyRectangle(Foreground, Footprint(Steps(s, k, xres, yres)))]
  {
    StepsKeepValid(s, k - 1, xres, yres);
  }

  /** The first frame erases exactly when the start is not unset, since a
      valid previous position is either the sentinel or on the surface. */
  lemma FirstFrameLength(s: RectState, xres: int, yres: int)
    requires Valid(s, xres, yres)
    ensures |Frame(s)| == if Unset(s) then 1 else 2
  {
  }

  /** A freshly generated rectangle issues one command in its first
      iteration and two in every later one. */
  lemma {:induction false} TraceLength(s: RectState, n: nat, xres: int, yres: int)
    requires Valid(s, xres, yres)
    ensures |Trace(s, n, xres, yres)| == 2 * n - (if n > 0 && Unset(s) then 1 else 0)
  {
    if n > 0 {
      var last := Steps(s, n - 1, xres, yres);
      var before := Trace(s, n - 1, xres, yres);
      TraceLength(s, n - 1, xres, yres);
      TraceExtend(s, n - 1, xres, yres);
      assert |Trace(s, n, xres, yres)| == |before| + |Frame(last)|;
      if n - 1 >= 1 {
        EraseFollowsDraw(s, n - 1, xres, yres);
      } else {
        FirstFrameLength(s, xres, yres);
      }
    }
  }

  /** One foreground draw per iteration. */
  lemma DrawsOncePerIteration(s: RectState, n: nat, xres: int, yres: int)
    ensures CountStyle(Trace(s, n, xres, yres), Foreground) == n
  {
    FramesDrawEachOnce(History(s, n, xres, yres));
  }

  /** Every command ever issued for a valid rectangle lies on the surface and
      has the rectangle's size. */
  lemma {:induction false} TraceInside(s: RectState, n: nat, xres: int, yres: int)
    requires Valid(s, xres, yres)
    ensures forall i :: 0 <= i < |Trace(s, n, xres, yres)| ==>
      BoxInside(Trace(s, n, xres, yres)[i].rect, xres, yres) &&
      Trace(s, n, xres, yres)[i].rect.width == s.width &&
      Trace(s, n, xres, yres)[i].rect.height == s.height
  {
    if n > 0 {
      TraceInside(s, n - 1, xres, yres);
      TraceExtend(s, n - 1, xres, yres);
      StepsKeepValid(s, n - 1, xres, yres);
      FrameInside(Steps(s, n - 1, xres, yres), xres, yres);
    }
  }

  /** On the demo's 2048 x 1400 window every command ever issued for a valid
      rectangle survives the renderer's `int16` / `uint16` conversions. */
  lemma TraceFitsWire(s: RectState, n: nat)
    requires Valid(s, XRES, YRES)
    ensures forall i :: 0 <= i < |Trace(s, n, XRES, YRES)| ==>
      var b := Trace(s, n, XRES, YRES)[i].rect;
      FitsInt16(b.x) && FitsInt16(b.y) && FitsUint16(b.width) && FitsUint16(b.height)
  {
    TraceInside(s, n, XRES, YRES);
  }

  /** The mover loop of `move_rec` together with the renderer's service of
      each request, run for `n` iterations: the rectangle is rendered, then
      stepped. */
  method Animate(r: Rect, xres: int, yres: int, n: nat) returns (drawn: seq<DrawCommand>)
    modifies r
    ensures drawn == Trace(old(r.State()), n, xres, yres)
    ensures r.State() == Steps(old(r.State()), n, xres, yres)
    ensures old(Valid(r.State(), xres, yres)) ==> Valid(r.State(), xres, yres)
  {
    ghost var start := r.State();
    drawn := [];
    var i := 0;
    while i < n
      invariant 0 <= i <= n
      invariant r.State() == Steps(start, i, xres, yres)
      invariant drawn == Trace(start, i, xres, yres)
    {
      var cmds := Render(r);
      drawn := drawn + cmds;
      TraceExtend(start, i, xres, yres);
      r.Step(xres, yres);
      i := i + 1;
    }
    if Valid(start, xres, yres) {
      StepsKeepValid(start, n, xres, yres);
    }
  }

  /** `generate_rec` followed by the first renderer iteration: a fresh
      rectangle is drawn once, at its initial position and size. */
  method FirstFrame(xres: int, yres: int,
                    drawWidth: int, drawX: int, drawY: int,
                    drawSpeed: int, drawMovX: int, drawMovY: int)
    returns (cmds: seq<DrawCommand>)
    requires 0 <= drawWidth < 30
    requires 0 <= drawX < xres - (20 + drawWidth)
    requires 0 <= drawY < yres - (20 + drawWidth)
    requires 0 <= drawSpeed < 40
    requires 0 <= drawMovX < 10 && 0 <= drawMovY < 10
    ensures cmds == [PolyRectangle(Foreground, Box(drawX, drawY, 20 + drawWidth, 20 + drawWidth))]
  {
    var r := new Rect.Generate(xres, yres, drawWidth, drawX, drawY, drawSpeed, drawMovX, drawMovY);
    cmds := Render(r);
  }
}
