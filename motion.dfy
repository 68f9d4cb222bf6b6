/** The value view of one animated rectangle and its bouncing physics.
    A `RectState` is a snapshot of the fields of a `Rect`; `Advance` is one
    motion step of a mover, written as a function of the old snapshot. */
module Motion {

  /** Size of the X11 window the demo opens. */
  const XRES: int := 2048
  const YRES: int := 1400

  /** The previous-position sentinel of a rectangle that was never drawn. */
  const UNSET: int := -1

  function Abs(n: int): (r: nat)
    ensures r == n || r == -n
  {
    if n < 0 then -n else n
  }

  /** `min + rand.Intn(max - min)`, with the raw `rand.Intn` result passed in
      as `draw`. `rand.Intn(n)` panics unless `n > 0` and otherwise returns a
      value in [0, n), hence the precondition. */
  function RandInt(min: int, max: int, draw: int): (r: int)
    requires min < max
    requires 0 <= draw < max - min
    ensures min <= r < max
  {
    min + draw
  }

  /** Snapshot of a rectangle: current and previous top-left corner, size,
      velocity and pacing interval (milliseconds between steps). */
  datatype RectState = RectState(
    x: int, prevx: int,
    y: int, prevy: int,
    width: int, height: int,
    movx: int, movy: int,
    speed: int)

  /** The previous position is the "never drawn" sentinel. */
  predicate Unset(s: RectState) {
    s.prevx == UNSET && s.prevy == UNSET
  }

  /** The rectangle at (x, y) of the given size lies fully on the surface. */
  predicate Inside(x: int, y: int, width: int, height: int, xres: int, yres: int) {
    0 <= x <= xres - width && 0 <= y <= yres - height
  }

  predicate OnSurface(s: RectState, xres: int, yres: int) {
    Inside(s.x, s.y, s.width, s.height, xres, yres)
  }

  /** What every rectangle of the demo satisfies once generated on a surface
      with at least 10 units of room on each axis: square, sizes, pacing and
      speeds in range, on the surface, and its previous position either unset
      or on the surface too. */
  predicate Valid(s: RectState, xres: int, yres: int) {
    && 20 <= s.width < 50 && s.height == s.width
    && 10 <= s.speed < 50
    && 1 <= Abs(s.movx) <= 5 && 1 <= Abs(s.movy) <= 5
    && xres - s.width >= 10 && yres - s.height >= 10
    && OnSurface(s, xres, yres)
    && (Unset(s) || Inside(s.prevx, s.prevy, s.width, s.height, xres, yres))
  }

  /** The velocity on one axis after the wall check: it is negated when the
      next move would cross the far wall or reach or cross the near wall. */
  function Reflected(pos: int, vel: int, size: int, res: int): (v: int)
    ensures v == vel || v == -vel
    ensures Abs(v) == Abs(vel)
  {
    if pos + vel + size > res || pos + vel <= 0 then -vel else vel
  }

  /** One motion step: remember the current position, reflect each axis
      independently, then move by the reflected velocity. */
  function Advance(s: RectState, xres: int, yres: int): (t: RectState)
    ensures t.prevx == s.x && t.prevy == s.y
    ensures t.x == s.x + t.movx && t.y == s.y + t.movy
    ensures t.width == s.width && t.height == s.height && t.speed == s.speed
    ensures Abs(t.movx) == Abs(s.movx) && Abs(t.movy) == Abs(s.movy)
    ensures s.movx != 0 ==> t.movx != 0
    ensures s.movy != 0 ==> t.movy != 0
  {
    var mx := Reflected(s.x, s.movx, s.width, xres);
    var my := Reflected(s.y, s.movy, s.height, yres);
    s.(prevx := s.x, prevy := s.y, movx := mx, movy := my, x := s.x + mx, y := s.y + my)
  }

  /** One axis stays within [0, res - size] as long as there is room for a
      reflected move: a velocity flipped at one wall cannot overshoot the
      other. */
  lemma AxisStaysInside(pos: int, vel: int, size: int, res: int)
    requires 0 <= pos <= res - size
    requires 2 * Abs(vel) <= res - size
    ensures 0 <= pos + Reflected(pos, vel, size, res) <= res - size
  {
    var v := Reflected(pos, vel, size, res);
    if pos + vel + size > res {
      assert vel > 0 && v == -vel;
    } else if pos + vel <= 0 {
      assert vel <= 0 && v == -vel;
    } else {
      assert v == vel;
    }
  }

  /** A step of a valid rectangle yields a valid rectangle. */
  lemma AdvanceKeepsValid(s: RectState, xres: int, yres: int)
    requires Valid(s, xres, yres)
    ensures Valid(Advance(s, xres, yres), xres, yres)
  {
    AxisStaysInside(s.x, s.movx, s.width, xres);
    AxisStaysInside(s.y, s.movy, s.height, yres);
  }

  /** A step of a valid rectangle always ends strictly away from the near
      walls, since a move to 0 or below is reflected. */
  lemma AdvanceLeavesNearWall(s: RectState, xres: int, yres: int)
    requires Valid(s, xres, yres)
    ensures Advance(s, xres, yres).x > 0 && Advance(s, xres, yres).y > 0
  {
    // Unreflected, pos + vel > 0; reflected at the far wall, the room in
    // Valid keeps pos - vel > 0; reflected at the near wall, vel < 0.
  }

  /** Bounce at the far (right) wall: 2010 + 5 + 40 > 2048. */
  lemma BounceAtFarWall(s: RectState)
    requires s.x == 2010 && s.width == 40 && s.movx == 5
    ensures Advance(s, XRES, YRES).movx == -5
    ensures Advance(s, XRES, YRES).x == 2005
  {
  }

  /** Bounce at the near (left) wall: 0 - 3 <= 0. */
  lemma BounceAtNearWall(s: RectState, xres: int, yres: int)
    requires s.x == 0 && s.movx == -3
    ensures Advance(s, xres, yres).movx == 3
    ensures Advance(s, xres, yres).x == 3
  {
  }

  /** Without room for a reflected move the invariant is lost: on a surface
      25 wide a 20-wide rectangle at x = 4 moving by -5 bounces to x = 9,
      past the far wall. */
  lemma NoRoomLeavesSurface(s: RectState)
    requires s.x == 4 && s.width == 20 && s.movx == -5
    requires s.y == 0 && s.height == 20 && s.movy == 1
    ensures OnSurface(s, 25, 100)
    ensures Advance(s, 25, 100).x == 9
    ensures !OnSurface(Advance(s, 25, 100), 25, 100)
  {
  }
}
