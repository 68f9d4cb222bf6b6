# Bouncing rectangles: the per-rectangle physics and draw decision

`test-graphics` animates many rectangles in an X11 window. Each rectangle
belongs to a mover goroutine that loops forever: it hands its `Rect` to a
single renderer goroutine, waits for the renderer's acknowledgment, sleeps for
its pacing interval and then moves the rectangle one step, bouncing off the
window's edges. The renderer erases the rectangle's previous box with the white
graphic context (unless the rectangle was never drawn) and draws its current
box with the black one.

This project models the sequential part of that program:

- `Motion` (`motion.dfy`): `randInt` with the raw `rand.Intn` result passed in
  as a parameter; `RectState`, a value snapshot of a `Rect`; `Advance`, one
  motion step as a function; the invariant `Valid` (square, sizes, pacing and
  speeds in range, on the surface, previous position either the `-1` sentinel
  or on the surface) and the lemmas that a step keeps it.
- `Rects` (`rect.dfy`): the class `Rect` with the source's fields. Its
  constructor `Generate` is `generate_rec` (each random draw is a parameter
  with the range `rand.Intn` guarantees), and its method `Step` is the body of
  the mover loop after the acknowledgment, updating the fields in place.
- `Renderer` (`renderer.dfy`): each `PolyRectangle` call is a `DrawCommand`
  value; `Frame` is what one request draws and `Render` is the renderer-loop
  body over a `Rect`, reusing one rectangle buffer as the source does.
- `Animation` (`animation.dfy`): one mover and the renderer in lock step.
  `Animate` replaces the infinite `move_rec` loop by any number `n` of
  iterations, each rendering and then stepping the rectangle; `Steps` and
  `Trace` are the states reached and the commands issued, and the lemmas state
  what every trace satisfies.

The bounding invariant needs room on each axis: a velocity flipped at one wall
must not overshoot the other. `AxisStaysInside` needs `2 * |v| <= res - size`;
with `|v| <= 5` that is `res - size >= 10`, which the demo's 2048 x 1400 window
gives to every rectangle narrower than 50. `NoRoomLeavesSurface` shows a
surface 25 wide on which a rectangle leaves the window after one bounce.
`Generate` therefore promises `Valid` only when both resolutions are at least
59.

`PolyRectangle` draws outlines, not filled boxes. A fresh velocity is
`randInt(0, 10) - 5`, so it lies in [-5, 4], and only a reflection can make
it 5.

## Model

| member | source | states |
|---|---|---|
| `Motion.RandInt` | test-graphics/test-graphics.go:46-48 | with `min < max` and a draw in [0, max-min) the result lies in [min, max) |
| `Motion.Reflected` | test-graphics/test-graphics.go:85-93 | the wall check only ever negates a velocity: the result is `v` or `-v` and has the same magnitude |
| `Motion.Advance` | test-graphics/test-graphics.go:82-96 | a step sets the previous position to the old position, moves by the post-reflection velocity, keeps width, height and pacing, preserves velocity magnitudes and keeps a non-zero velocity non-zero |
| `Motion.AxisStaysInside` | test-graphics/test-graphics.go:85-96 | on one axis, from `0 <= pos <= res-size` with `2*abs(v) <= res-size`, the moved position is again in [0, res-size] |
| `Motion.AdvanceKeepsValid` | test-graphics/test-graphics.go:82-96 | a step of a valid rectangle is valid: still square, on the surface, velocity magnitudes in [1,5], pacing in [10,50), previous position unset or on the surface |
| `Motion.AdvanceLeavesNearWall` | test-graphics/test-graphics.go:85-96 | after a step of a valid rectangle both coordinates are strictly positive, since a move to 0 or below is reflected |
| `Motion.BounceAtFarWall` | test-graphics/test-graphics.go:85-95 | `x=2010, width=40, movx=5` on the 2048-wide window gives `movx=-5` and `x=2005` |
| `Motion.BounceAtNearWall` | test-graphics/test-graphics.go:85-95 | `x=0, movx=-3` gives `movx=3` and `x=3` |
| `Motion.NoRoomLeavesSurface` | test-graphics/test-graphics.go:85-96 | without room for a reflected move the bound is lost: on a surface 25 wide, `x=4, width=20, movx=-5` moves to `x=9`, off the surface |
| `Rects.Rect.Generate` | test-graphics/test-graphics.go:50-66 | a fresh rectangle is square with width in [20,50), has `x` in [0, xres-width) and `y` in [0, yres-height), previous position `-1,-1`, pacing in [10,50), velocities in [-5,4] with a zero `movx` turned into 1 and a zero `movy` into -1; it is valid when both resolutions are at least 59 |
| `Rects.Rect.Step` | test-graphics/test-graphics.go:82-96 | the new state is `Advance` of the old one: previous position is the old position, position is old position plus the reflected velocity, velocities are only negated, width, height and pacing unchanged, validity kept |
| `Renderer.Render` | test-graphics/test-graphics.go:108-122 | the commands issued for a received `Rect` are `Frame` of its state, and nothing is modified |
| `Renderer.FrameContents` | test-graphics/test-graphics.go:108-122 | one request yields exactly one foreground draw, last, at the current position and size; and a background erase, first, at the previous position, exactly when both previous coordinates are non-negative |
| `Renderer.UnsetDrawsOnce` | test-graphics/test-graphics.go:111-122 | a rectangle whose previous position is the sentinel yields only the foreground draw |
| `Renderer.FramesDrawEachOnce` | test-graphics/test-graphics.go:104-126 | serving any sequence of requests yields exactly one foreground draw per request |
| `Renderer.FrameInside` | test-graphics/test-graphics.go:108-122 | every command issued for a valid rectangle lies on the surface and has the rectangle's size |
| `Renderer.FrameFitsWire` | test-graphics/test-graphics.go:108-121 | on the 2048 x 1400 window the `int16` coordinate and `uint16` size conversions of a valid rectangle's commands are exact |
| `Animation.StepsKeepValid` | test-graphics/test-graphics.go:72-97 | any number of steps keeps a valid rectangle valid and keeps its size, pacing and velocity magnitudes |
| `Animation.EraseFollowsDraw` | test-graphics/test-graphics.go:82-122 | from the second iteration on, a request erases exactly the box drawn in the iteration before and then draws the new box |
| `Animation.FirstFrameLength` | test-graphics/test-graphics.go:111-122 | a valid rectangle's first request issues one command when its previous position is the sentinel and two otherwise |
| `Animation.TraceLength` | test-graphics/test-graphics.go:72-122 | `n` iterations of a valid rectangle issue `2n` commands, or `2n-1` when it starts never drawn |
| `Animation.DrawsOncePerIteration` | test-graphics/test-graphics.go:72-122 | `n` iterations issue exactly `n` foreground draws |
| `Animation.TraceInside` | test-graphics/test-graphics.go:72-122 | every command issued in any number of iterations of a valid rectangle lies on the surface and has the rectangle's size |
| `Animation.TraceFitsWire` | test-graphics/test-graphics.go:108-121 | on the 2048 x 1400 window every command of any trace of a valid rectangle survives the `int16` / `uint16` conversions unchanged |
| `Animation.Animate` | test-graphics/test-graphics.go:71-97 | `n` iterations of render-then-step issue `Trace` of the initial state, leave the rectangle in `Steps` of it, and keep validity |
| `Animation.FirstFrame` | test-graphics/test-graphics.go:50-122 | a freshly generated rectangle's first request issues exactly one command: the foreground draw at its initial position and size |

## Left out

- Goroutines, the buffered channel of `num_rectangles` and the `render_done` handshake: their behaviour is Go's channel and scheduler semantics. For one rectangle the handshake makes rendering and stepping alternate, which `Animate` models; the interleaving of different rectangles' requests is not modelled.
- `time.Sleep` pacing: timing only; `speed` is kept as a plain integer field.
- X11: `init_X11`, the graphic contexts, `PolyRectangle` itself and the key-press loop in `main` are foreign library calls and I/O; a draw call is a `DrawCommand` value instead.
- `math/rand` and its seeding: each `rand.Intn` result is a parameter of `Generate` with the range `rand.Intn` guarantees.
- The `int16` / `uint16` conversions in the renderer are not modelled as machine-width casts; `FrameFitsWire` and `TraceFitsWire` show they are exact on the demo's window.
- The `render_done` field of `Rect` belongs to the handshake and is not a field of the model.
