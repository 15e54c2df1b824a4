# Dapper Dasher — a verified model of the frame simulation

Dapper Dasher is a small raylib side-scroller: the player sprite ("scarfy")
stands at the bottom of a 512×380 window. Ten nebula sprites scroll toward the
player at −300 px/s, spaced 400 px apart. A finish line scrolls with them,
and three parallax layers scroll behind. Each frame the program does five
things in order. It scrolls the three parallax layers. It applies gravity
and the jump key. It moves the nebulae, the finish line and the player. It
advances the sprite-sheet animations. Then it tests the player against each
nebula's hit-box, which is shrunk by 50 px on every side. A hit latches a
`collision` flag for good ("Game Over!"). Otherwise the frame shows "You
win!" while the player is at or past the finish line. That verdict is
recomputed every frame and is not latched: a later hit turns it into a
loss, and a player who steps back behind the line is playing again
(`WinIsNotFinal`). Holding A moves the player 10 px per frame. The line moves
`300 * dT` per frame, which is less than 10 px whenever `dT < 1/30` s, as it
is at the 60 fps target.

The model has four modules:

- `Anim` (`anim.dfy`): the `AnimData` record, `IsOnGround` and
  `UpdateAnimData` as pure functions. It also has `Animate`, which applies
  `UpdateAnimData` to a whole sequence of frame times, and lemmas about it.
  The counter moves exactly once per advancing call, modulo `maxFrame + 1`.
  It stays in range. The sheet column lags the counter by one frame.
- `Collision` (`collision.dfy`): the rectangle test, the padded nebula
  hit-box and the player's draw box.
- `World` (`world.dfy`): everything the loop changes, as a `State` value.
  `Initial` is the set-up before the loop. `Frame` is one iteration of the
  loop. `OutcomeOf` is the end-of-frame verdict. `Inv` is the invariant that
  every frame keeps. `Run` is any sequence of frames.
- `Game` (`game.dfy`): the imperative form. Class `Dasher` holds the
  `nebulae` array and the scalars that the program updates in place. Its
  constructor performs the set-up. `Step` performs one loop iteration,
  through helper methods that each mirror one block of the loop body. `Step`
  is proved to leave the object in the state `Frame` computes from the old
  state, and to keep `Inv`.

Floating-point positions and times are `real`. Two integer effects of the
C++ are kept:

- `velocity` is an `int`, so each float assigned to it is truncated toward
  zero (`Trunc`).
- Texture sizes are divided as integers (`width / 8`, `width / 6`).

The frame time and the three keys are parameters of `Step`: `dT`,
`jumpPressed` (edge-triggered), `rightDown` and `leftDown` (held).

Behaviour of the code worth knowing:

- After an advance, `rec.x` holds the frame that was current before the
  increment (line 25 runs before line 26). So the invariant is "`rec.x` shows
  the previous frame" (`ShowsPrevious`).
- Line 155 reads `velocity =+ gravity * dT`. That is an assignment of
  `+(gravity * dT)`, not an accumulation. In the air the velocity is reset
  every frame to the truncated `42000 * dT`. `FrameForgetsVelocity` shows
  that the velocity before a frame plays no part in that frame at all.
- If both move keys are held, both moves apply (+10 then −10), so the
  player does not move horizontally.
- The state keeps being simulated after the game is won or lost, exactly as
  the loop does. Only the drawing differs.

## Model

| member | source | states |
|---|---|---|
| `Anim.IsOnGround` | Dapper-Dasher/dasher.cpp:12-15 | true iff the sprite's bottom edge `pos.y + rec.height` is at or below the window height |
| `Anim.UpdateAnimData` | Dapper-Dasher/dasher.cpp:17-33 | `pos`, `updateTime`, `rec.y/width/height` never change. Below the threshold only `runningTime` moves, by exactly `deltaTime`. At the threshold the clock resets to 0 and `rec.x` becomes old `frame * rec.width`. The counter stays in `0..maxFrame`. With `deltaTime >= 0`, the clock stays in `[0, updateTime)` |
| `Anim.AdvanceIsSuccessor` | Dapper-Dasher/dasher.cpp:21-30 | for a counter in `0..maxFrame`, an advancing call sets `frame` to `(frame + 1) % (maxFrame + 1)` |
| `Anim.UpdateKeepsShowsPrevious` | Dapper-Dasher/dasher.cpp:21-31 | one call keeps the drawn column one frame behind the counter |
| `Anim.UpdateIgnoresPosition` | Dapper-Dasher/dasher.cpp:17-33 | the animation result does not depend on where the sprite is drawn |
| `Anim.AnimateCountsTicks` | Dapper-Dasher/dasher.cpp:17-33 | after any sequence of calls, `frame` is the start frame plus the number of advancing calls, modulo `maxFrame + 1` |
| `Anim.AnimateKeepsInvariant` | Dapper-Dasher/dasher.cpp:17-33 | across any sequence of calls the counter stays in `0..maxFrame` and the column lags it by one |
| `Anim.NoAdvanceBeforeUpdateTime` | Dapper-Dasher/dasher.cpp:19-21 | with non-negative frame times, while the elapsed total stays below `updateTime - runningTime`, no call advances and the clock holds exactly the elapsed time |
| `Anim.AnimateKeepsPlacement` | Dapper-Dasher/dasher.cpp:17-33 | any number of calls leave `pos`, `updateTime` and the cell size untouched |
| `Collision.NebulaHitBox` | Dapper-Dasher/dasher.cpp:201-207 | the hit-box is the nebula's draw rectangle inset by `pad = 50` on each of the four sides |
| `Collision.CheckCollisionRecs` | Dapper-Dasher/dasher.cpp:214 | the library's rectangle test, taken as strict overlap on both axes. For rectangles of positive size it holds iff their intersection has positive width and height |
| `Collision.DrawBox` | Dapper-Dasher/dasher.cpp:208-213 | the player's box: its position with its sheet cell's width and height |
| `Collision.Hits` | Dapper-Dasher/dasher.cpp:199-217 | one iteration of the collision loop's test: the nebula's padded hit-box against the player's box |
| `Collision.HitMeansDeepOverlap` | Dapper-Dasher/dasher.cpp:199-217 | a hit holds iff the player reaches more than 50 px into the nebula's drawn rectangle from each side, on both axes |
| `Collision.HitImpliesDrawOverlap` | Dapper-Dasher/dasher.cpp:199-217 | a hit implies the drawn rectangles overlap: no false positive for a player clear of the nebula |
| `World.Trunc` | Dapper-Dasher/dasher.cpp:155-161 | float-to-int conversion drops the fraction toward zero: the result is within 1 of `x`, on the zero side |
| `World.Scroll` | Dapper-Dasher/dasher.cpp:104-123 | a layer offset moves left by exactly `speed * dT` while the moved value stays above `-2 * width`, and is reset to exactly 0 when it reaches `<= -2 * width`. So it never ends at or below `-2 * width`, and an offset `<= 0` stays `<= 0` |
| `World.Shifted` | Dapper-Dasher/dasher.cpp:167 | one nebula carried `dx` pixels horizontally; `y` and every other field are unchanged |
| `World.ShiftAll` | Dapper-Dasher/dasher.cpp:165-168 | the same length, and every nebula is `Shifted` by the same `dx` |
| `World.AnimateAll` | Dapper-Dasher/dasher.cpp:193-197 | the same length, and every nebula is one `UpdateAnimData` call with the same `dT` and last frame |
| `World.AnyHit` | Dapper-Dasher/dasher.cpp:199-218 | some nebula of the array `Hits` the player |
| `World.Frame` | Dapper-Dasher/dasher.cpp:104-218 | one iteration of the loop's simulation, in the program's order: parallax scroll, ground check and jump, nebula and finish-line scroll, player move, animation, collision latch. It keeps the number of nebulae; what each part computes is stated by the `Frame*` lemmas below |
| `World.Inv` | Dapper-Dasher/dasher.cpp:53-229 | what holds at the top of every frame: ten nebulae 400 px apart with the last on the finish line, all on the bottom row at the cell size; sprite counters, clocks and columns consistent; velocity a fall speed in the air or 0/jump on the ground; parallax offsets in `(-2w, 0]` |
| `World.Run` | Dapper-Dasher/dasher.cpp:96-229 | the state after one loop iteration per input, in order |
| `World.Initial` | Dapper-Dasher/dasher.cpp:53-93 | the start state satisfies `Inv`, has no collision, has the player grounded with zero velocity, has the finish line on the last nebula, and places every nebula at or right of the window edge |
| `World.NewVelocity` | Dapper-Dasher/dasher.cpp:145-162 | in the air the velocity is `Trunc(gravity * dT)`. On the ground it is 0, or the jump impulse when jump is pressed |
| `World.Moved` | Dapper-Dasher/dasher.cpp:173-185 | `y` moves by `velocity * dT`. `x` moves +10 for D and −10 for A. Nothing else changes |
| `World.PlayerAfter` | Dapper-Dasher/dasher.cpp:173-191 | the player is moved, then animated with last frame 5 only when not in the air. In the air, everything but the position is unchanged |
| `World.NebulaeAfter` | Dapper-Dasher/dasher.cpp:164-197 | each nebula is shifted by `nebVel * dT` and then animated with last frame 7 |
| `World.FrameGround` | Dapper-Dasher/dasher.cpp:145-162 | `isInAir` is the negation of the ground test. The velocity is set (not accumulated) in the air, and the jump impulse is added only on the ground |
| `World.FrameScrolls` | Dapper-Dasher/dasher.cpp:164-171 | every nebula's `x` and the finish line shift by the same `nebVel * dT`; `y` does not change |
| `World.FrameMovesPlayer` | Dapper-Dasher/dasher.cpp:173-185 | the player's `y` moves by the new velocity times `dT`. Its `x` moves by both held keys |
| `World.FrameAnimates` | Dapper-Dasher/dasher.cpp:187-197 | apart from position, every nebula is one `UpdateAnimData` call (last frame 7). The player is one call (last frame 5) when grounded and unchanged when in the air |
| `World.FrameLatchesCollision` | Dapper-Dasher/dasher.cpp:199-218 | `collision` afterwards iff it was set before or some padded hit-box overlaps the moved player |
| `World.FrameForgetsVelocity` | Dapper-Dasher/dasher.cpp:155 | the frame's result does not depend on the velocity before it |
| `World.JumpIgnoredInAir` | Dapper-Dasher/dasher.cpp:158-162 | pressing jump while airborne changes nothing |
| `World.OutcomeOf` | Dapper-Dasher/dasher.cpp:220-229 | the outcome is LOSE iff `collision`. It is WIN iff there is no collision and `pos.x >= finishLine`. Otherwise it is PLAYING |
| `World.FramePreservesInv` | Dapper-Dasher/dasher.cpp:104-218 | a frame with `dT >= 0` keeps `Inv`. Inv covers: nebulae 400 px apart with the last on the finish line, fixed row and size, animation counters and clocks in range, columns lagging counters, velocity a fall speed in the air or 0/jump on the ground, parallax offsets in `(-2w, 0]` |
| `World.RunPreservesInv` | Dapper-Dasher/dasher.cpp:96-229 | `Inv` holds after any sequence of frames with non-negative frame times |
| `World.WinIsNotFinal` | Dapper-Dasher/dasher.cpp:220-229 | a concrete state satisfying `Inv` that shows WIN (the start state with the player moved onto the finish line), where one frame holding A gives PLAYING: the win is not latched |
| `World.LoseIsFinal` | Dapper-Dasher/dasher.cpp:214-224 | once `collision` is set it stays set, and the outcome is LOSE in every later frame |
| `World.RunScrollsTogether` | Dapper-Dasher/dasher.cpp:164-171 | over any run, every nebula and the finish line have moved by `nebVel` times the total elapsed time |
| `World.StaysGroundedWithoutJump` | Dapper-Dasher/dasher.cpp:145-174 | a player standing exactly on the ground who never presses jump keeps its height, is never airborne and has zero velocity |
| `Game.Dasher.constructor` | Dapper-Dasher/dasher.cpp:53-93 | the new object's state is `Initial(textures)` and satisfies `Valid` |
| `Game.Dasher.Step` | Dapper-Dasher/dasher.cpp:99-229 | the new state is `Frame(old state)`, `Valid` (hence `Inv`) is kept, the returned outcome is `OutcomeOf` the new state, and a set collision stays set with outcome LOSE |
| `Game.Dasher.Simulate` | Dapper-Dasher/dasher.cpp:104-218 | the fields after the simulation part of the loop body equal `Frame` of the fields before |
| `Game.Dasher.ScrollParallax` | Dapper-Dasher/dasher.cpp:104-123 | each offset becomes `Scroll` of its old value at 20, 40 and 80 px/s |
| `Game.Dasher.GroundCheck` | Dapper-Dasher/dasher.cpp:145-162 | `isInAir` is the negated ground test. The velocity is overwritten in the air; the jump is applied only on the ground |
| `Game.Dasher.MoveNebulae` | Dapper-Dasher/dasher.cpp:164-168 | the array afterwards is every old nebula shifted by `nebVel * dT` |
| `Game.Dasher.MovePlayer` | Dapper-Dasher/dasher.cpp:173-185 | the player becomes `Moved` of its old record |
| `Game.Dasher.AnimateNebulae` | Dapper-Dasher/dasher.cpp:193-197 | the array afterwards is every old nebula animated once with last frame 7 |
| `Game.Dasher.CheckCollisions` | Dapper-Dasher/dasher.cpp:199-218 | `collision` afterwards iff it was set before or some nebula's padded box overlaps the player |

## Left out

- Rendering and the window are left out: `InitWindow`, `SetTargetFPS`,
  `BeginDrawing`/`EndDrawing`, `ClearBackground`, the `DrawTextureEx` and
  `DrawTextureRec` calls with their draw positions, `DrawText`, and
  `CloseWindow`. They produce pixels and no state the simulation reads.
- Texture loading and unloading are left out. Texture sizes are parameters
  (`Textures`) and are required to be positive. A texture that fails to load
  (zero size) is not modelled; the program does not check for it.
- The loop itself (`while (!WindowShouldClose())`) is left out because its
  end depends on the operating system's window. `Step` models one iteration
  and `Run` any finite sequence of iterations.
- `GetFrameTime`, `IsKeyPressed(KEY_SPACE)`, `IsKeyDown(KEY_D)` and
  `IsKeyDown(KEY_A)` become the parameters `dT`, `jumpPressed`, `rightDown`
  and `leftDown`. `Step` requires `dT >= 0`, which is what the frame timer
  provides.
- `CheckCollisionRecs` belongs to raylib and its code is not part of this
  model. It is modelled as strict overlap of the two rectangles' open
  intervals on both axes, which is the formula of current raylib. Under that
  assumption, rectangles that only touch along an edge do not collide. This
  boundary behaviour is an assumption about the library, not something
  checked against its code.
- IEEE single-precision rounding is not modelled: positions and times are
  exact reals. A `float` whose value does not fit in an `int` (undefined in
  C++) converts by the same unbounded truncation.
- The player's set-up reads `scarfyData.rec.width` and `.rec.height`
  inside `scarfyData`'s own brace initialiser (line 79). The model assumes
  the members are initialised in declaration order, so that `rec` already
  holds the cell size when `pos` is computed.
- The end-state texts and the PLAYING draw branch are modelled only as the
  returned `Outcome`.
