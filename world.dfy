/** One iteration of Dapper Dasher's game loop as a function on values: the
    state the loop owns, how it is set up, how one frame changes it, and
    what stays true from frame to frame. */
module World {
  import opened Anim
  import opened Collision

  const WindowWidth: real := 512.0
  const WindowHeight: int := 380
  /** Acceleration due to gravity, pixels per second per second. */
  const Gravity: real := 42000.0
  /** The jump impulse, `gravity / -2.5`. */
  const JumpVel: real := Gravity / -2.5
  /** Horizontal pixels per frame while a move key is held. */
  const ScarfySpeed: int := 10
  /** Horizontal velocity of the nebulae, pixels per second. */
  const NebVel: int := -300
  const SizeOfNebulae: nat := 10
  /** Horizontal distance between consecutive nebulae at spawn. */
  const NebulaSpacing: int := 400
  /** Background scroll speed; the midground scrolls at twice it, the
      foreground at four times it. */
  const XNumber: real := 20.0
  const ScarfyMaxFrame: nat := 5
  const NebulaMaxFrame: nat := 7
  /** Seconds between animation frames, for every sprite. */
  const FrameUpdateTime: real := 1.0 / 12.0

  /** Pixel sizes of the loaded textures. */
  datatype Textures = Textures(nebulaWidth: int, nebulaHeight: int,
                               scarfyWidth: int, scarfyHeight: int,
                               backgroundWidth: int, midgroundWidth: int,
                               foregroundWidth: int)
  {
    /** Every texture loaded with a non-empty size. */
    predicate Loaded()
    {
      nebulaWidth > 0 && nebulaHeight > 0 && scarfyWidth > 0 && scarfyHeight > 0 &&
      backgroundWidth > 0 && midgroundWidth > 0 && foregroundWidth > 0
    }
  }

  /** What the loop polls each frame: the frame time and the three keys. */
  datatype Input = Input(dT: real, jumpPressed: bool, rightDown: bool, leftDown: bool)

  /** Everything the loop changes from frame to frame. */
  datatype State = State(nebulae: seq<AnimData>, scarfy: AnimData,
                         velocity: int, isInAir: bool, finishLine: real,
                         bgX: real, mgX: real, fgX: real, collision: bool)

  datatype Outcome = Playing | Lose | Win

  /** C++'s conversion of a floating value to `int`: the fraction is dropped,
      rounding toward zero. */
  function Trunc(x: real): (n: int)
    ensures x >= 0.0 ==> n >= 0 && n as real <= x < n as real + 1.0
    ensures x < 0.0 ==> n <= 0 && n as real - 1.0 < x <= n as real
  {
    if x >= 0.0 then x.Floor else -((-x).Floor)
  }

  /** One parallax layer moved left by `speed * dT`, and put back at the
      origin once it has moved two of its (doubled) texture widths. */
  function Scroll(x: real, speed: real, dT: real, width: int): (r: real)
    // the offset never reaches the reset point
    ensures width > 0 ==> r > -2.0 * width as real
    // it moves left, or back to the origin
    ensures x <= 0.0 && speed * dT >= 0.0 ==> r <= 0.0
    // the reset happens exactly when the moved offset reaches `-2 * width`
    ensures x - speed * dT > (-width * 2) as real ==> r == x - speed * dT
    ensures x - speed * dT <= (-width * 2) as real ==> r == 0.0
  {
    var moved := x - speed * dT;
    if moved <= (-width * 2) as real then 0.0 else moved
  }

  /** A nebula carried `dx` pixels horizontally. */
  function Shifted(nebula: AnimData, dx: real): (r: AnimData)
    ensures r.pos.x - nebula.pos.x == dx && r.pos.y == nebula.pos.y
    ensures r.(pos := nebula.pos) == nebula
  {
    nebula.(pos := nebula.pos.(x := nebula.pos.x + dx))
  }

  /** Some nebula's hit-box overlaps the player. */
  predicate AnyHit(nebulae: seq<AnimData>, player: AnimData)
  {
    exists i :: 0 <= i < |nebulae| && Hits(nebulae[i], player)
  }

  /** The state before the first frame. */
  function Initial(tex: Textures): (s: State)
    requires tex.Loaded()
    ensures Inv(s, tex)
    ensures !s.collision && !s.isInAir && s.velocity == 0
    ensures IsOnGround(s.scarfy, WindowHeight)
    ensures s.finishLine == s.nebulae[SizeOfNebulae - 1].pos.x
    ensures forall i :: 0 <= i < SizeOfNebulae ==> s.nebulae[i].pos.x >= WindowWidth
  {
    var nebulaRec := Rect(0.0, 0.0, (tex.nebulaWidth / 8) as real, (tex.nebulaHeight / 8) as real);
    var nebulae := seq(SizeOfNebulae, i requires 0 <= i < SizeOfNebulae =>
      AnimData(nebulaRec, Vec2(WindowWidth + (i * NebulaSpacing) as real,
                               WindowHeight as real - (tex.nebulaHeight / 8) as real),
               0, FrameUpdateTime, 0.0));
    var scarfyRec := Rect(0.0, 0.0, (tex.scarfyWidth / 6) as real, tex.scarfyHeight as real);
    var scarfy := AnimData(scarfyRec,
                           Vec2(WindowWidth / 2.0 - scarfyRec.width / 2.0,
                                WindowHeight as real - scarfyRec.height),
                           0, FrameUpdateTime, 0.0);
    State(nebulae, scarfy, 0, false, nebulae[SizeOfNebulae - 1].pos.x, 0.0, 0.0, 0.0, false)
  }

  /** One iteration of the loop: parallax scroll, ground check and jump,
      obstacle and finish-line scroll, player motion, animation, collision.
      What it promises is stated by the Frame lemmas below. */
  function Frame(s: State, tex: Textures, input: Input): (r: State)
    ensures |r.nebulae| == |s.nebulae|
  {
    var dT := input.dT;
    var grounded := IsOnGround(s.scarfy, WindowHeight);
    var velocity := NewVelocity(grounded, input.jumpPressed, dT);
    var scarfy := PlayerAfter(s.scarfy, velocity, !grounded, input);
    var nebulae := NebulaeAfter(s.nebulae, dT);
    State(nebulae, scarfy, velocity, !grounded, s.finishLine + NebVel as real * dT,
          Scroll(s.bgX, XNumber, dT, tex.backgroundWidth),
          Scroll(s.mgX, XNumber * 2.0, dT, tex.midgroundWidth),
          Scroll(s.fgX, XNumber * 4.0, dT, tex.foregroundWidth),
          s.collision || AnyHit(nebulae, scarfy))
  }

  /** Ground check: on the ground the velocity is cleared; in the air it is
      SET to the truncated `gravity * dT`, whatever it was before, and the
      jump impulse acts only when the key is pressed on the ground. */
  lemma FrameGround(s: State, tex: Textures, input: Input)
    ensures Frame(s, tex, input).isInAir == !IsOnGround(s.scarfy, WindowHeight)
    ensures Frame(s, tex, input).isInAir ==> Frame(s, tex, input).velocity == Trunc(Gravity * input.dT)
    ensures !Frame(s, tex, input).isInAir ==>
      Frame(s, tex, input).velocity == (if input.jumpPressed then Trunc(JumpVel) else 0)
  {
  }

  /** Every nebula and the finish line move by the same `nebVel * dT`. */
  lemma FrameScrolls(s: State, tex: Textures, input: Input)
    ensures forall i :: 0 <= i < |s.nebulae| ==>
      Frame(s, tex, input).nebulae[i].pos == s.nebulae[i].pos.(x := s.nebulae[i].pos.x + NebVel as real * input.dT)
    ensures Frame(s, tex, input).finishLine == s.finishLine + NebVel as real * input.dT
  {
  }

  /** The player moves by the new velocity vertically and by both held move
      keys horizontally (holding both cancels out). */
  lemma FrameMovesPlayer(s: State, tex: Textures, input: Input)
    ensures Frame(s, tex, input).scarfy.pos.y ==
            s.scarfy.pos.y + Frame(s, tex, input).velocity as real * input.dT
    ensures Frame(s, tex, input).scarfy.pos.x ==
            s.scarfy.pos.x + (if input.rightDown then ScarfySpeed as real else 0.0)
                           - (if input.leftDown then ScarfySpeed as real else 0.0)
  {
    var r := Frame(s, tex, input);
    assert r.scarfy == PlayerAfter(s.scarfy, r.velocity, r.isInAir, input);
  }

  /** The collision flag is latched: it is set iff it was set before or some
      nebula's padded hit-box overlaps the player after the move. */
  lemma FrameLatchesCollision(s: State, tex: Textures, input: Input)
    ensures Frame(s, tex, input).collision <==>
            s.collision || AnyHit(Frame(s, tex, input).nebulae, Frame(s, tex, input).scarfy)
  {
  }

  /** Apart from where they are drawn, every nebula is the result of one
      animation call (last frame 7), and the player is too when it is on the
      ground (last frame 5) and is unchanged when it is in the air. */
  lemma FrameAnimates(s: State, tex: Textures, input: Input)
    ensures forall i :: 0 <= i < |s.nebulae| ==>
      Frame(s, tex, input).nebulae[i].(pos := s.nebulae[i].pos) ==
      UpdateAnimData(s.nebulae[i], input.dT, NebulaMaxFrame)
    ensures Frame(s, tex, input).isInAir ==>
      Frame(s, tex, input).scarfy.(pos := s.scarfy.pos) == s.scarfy
    ensures !Frame(s, tex, input).isInAir ==>
      Frame(s, tex, input).scarfy.(pos := s.scarfy.pos) ==
      UpdateAnimData(s.scarfy, input.dT, ScarfyMaxFrame)
  {
    var r := Frame(s, tex, input);
    var dx := NebVel as real * input.dT;
    forall i | 0 <= i < |s.nebulae|
      ensures r.nebulae[i].(pos := s.nebulae[i].pos) ==
              UpdateAnimData(s.nebulae[i], input.dT, NebulaMaxFrame)
    {
      var shifted := Shifted(s.nebulae[i], dx);
      UpdateIgnoresPosition(s.nebulae[i], shifted.pos, input.dT, NebulaMaxFrame);
      UpdateIgnoresPosition(UpdateAnimData(shifted, input.dT, NebulaMaxFrame), s.nebulae[i].pos,
                            input.dT, NebulaMaxFrame);
    }
    if !r.isInAir {
      UpdateIgnoresPosition(s.scarfy, r.scarfy.pos, input.dT, ScarfyMaxFrame);
    }
  }

  /** The velocity before a frame plays no part in it: `velocity =+ gravity
      * dT` overwrites the velocity instead of accumulating it, so falling
      never speeds up and a jump lasts a single frame. */
  lemma FrameForgetsVelocity(s: State, tex: Textures, input: Input, v: int)
    ensures Frame(s.(velocity := v), tex, input) == Frame(s, tex, input)
  {
  }

  /** Pressing jump in the air changes nothing at all. */
  lemma JumpIgnoredInAir(s: State, tex: Textures, input: Input)
    requires !IsOnGround(s.scarfy, WindowHeight)
    ensures Frame(s, tex, input.(jumpPressed := true)) == Frame(s, tex, input.(jumpPressed := false))
  {
    var pressed, released := input.(jumpPressed := true), input.(jumpPressed := false);
    var v := NewVelocity(false, true, input.dT);
    assert v == NewVelocity(false, false, input.dT);
    assert PlayerAfter(s.scarfy, v, true, pressed) == PlayerAfter(s.scarfy, v, true, released);
  }

  /** A state whose parts are each what Frame computes is Frame's result. */
  lemma FrameByParts(s: State, tex: Textures, input: Input, r: State)
    requires r.isInAir == !IsOnGround(s.scarfy, WindowHeight)
    requires r.velocity == NewVelocity(!r.isInAir, input.jumpPressed, input.dT)
    requires r.scarfy == PlayerAfter(s.scarfy, r.velocity, r.isInAir, input)
    requires r.nebulae == NebulaeAfter(s.nebulae, input.dT)
    requires r.finishLine == s.finishLine + NebVel as real * input.dT
    requires r.bgX == Scroll(s.bgX, XNumber, input.dT, tex.backgroundWidth)
    requires r.mgX == Scroll(s.mgX, XNumber * 2.0, input.dT, tex.midgroundWidth)
    requires r.fgX == Scroll(s.fgX, XNumber * 4.0, input.dT, tex.foregroundWidth)
    requires r.collision == (s.collision || AnyHit(r.nebulae, r.scarfy))
    ensures Frame(s, tex, input) == r
  {
  }

  /** The player's velocity after the ground check and the jump test. */
  function NewVelocity(grounded: bool, jumpPressed: bool, dT: real): (v: int)
    ensures !grounded ==> v == Trunc(Gravity * dT)
    ensures grounded ==> v == (if jumpPressed then Trunc(JumpVel) else 0)
  {
    var velocity := if grounded then 0 else Trunc(Gravity * dT);
    var isInAir := !grounded;
    if jumpPressed && !isInAir then Trunc(velocity as real + JumpVel) else velocity
  }

  /** The player moved by the velocity and the move keys, then animated
      if it is not in the air. */
  function PlayerAfter(scarfy: AnimData, velocity: int, isInAir: bool, input: Input): (r: AnimData)
    ensures r.pos == Moved(scarfy, velocity, input.dT, input.rightDown, input.leftDown).pos
    ensures isInAir ==> r.(pos := scarfy.pos) == scarfy
    ensures !isInAir ==> r == UpdateAnimData(Moved(scarfy, velocity, input.dT, input.rightDown, input.leftDown), input.dT, ScarfyMaxFrame)
  {
    var moved := Moved(scarfy, velocity, input.dT, input.rightDown, input.leftDown);
    if !isInAir then UpdateAnimData(moved, input.dT, ScarfyMaxFrame) else moved
  }

  /** The player moved by the velocity vertically and by both held move keys
      horizontally; holding both cancels out. */
  function Moved(scarfy: AnimData, velocity: int, dT: real, rightDown: bool, leftDown: bool): (r: AnimData)
    ensures r.pos.y == scarfy.pos.y + velocity as real * dT
    ensures r.pos.x == scarfy.pos.x + (if rightDown then ScarfySpeed as real else 0.0)
                                    - (if leftDown then ScarfySpeed as real else 0.0)
    ensures r.(pos := scarfy.pos) == scarfy
  {
    var y := scarfy.pos.y + velocity as real * dT;
    var x1 := if rightDown then scarfy.pos.x + ScarfySpeed as real else scarfy.pos.x;
    var x := if leftDown then x1 - ScarfySpeed as real else x1;
    scarfy.(pos := Vec2(x, y))
  }

  /** Every nebula moved by `nebVel * dT`, then animated. */
  function NebulaeAfter(nebulae: seq<AnimData>, dT: real): (r: seq<AnimData>)
    ensures |r| == |nebulae|
    ensures forall i :: 0 <= i < |nebulae| ==>
      r[i] == UpdateAnimData(Shifted(nebulae[i], NebVel as real * dT), dT, NebulaMaxFrame)
  {
    AnimateAll(ShiftAll(nebulae, NebVel as real * dT), dT, NebulaMaxFrame)
  }

  /** Every sprite carried `dx` pixels horizontally. */
  function ShiftAll(sprites: seq<AnimData>, dx: real): (r: seq<AnimData>)
    ensures |r| == |sprites|
    ensures forall i :: 0 <= i < |sprites| ==> r[i] == Shifted(sprites[i], dx)
  {
    seq(|sprites|, i requires 0 <= i < |sprites| => Shifted(sprites[i], dx))
  }

  /** Every sprite's animation advanced by one call. */
  function AnimateAll(sprites: seq<AnimData>, dT: real, maxFrame: int): (r: seq<AnimData>)
    ensures |r| == |sprites|
    ensures forall i :: 0 <= i < |sprites| ==> r[i] == UpdateAnimData(sprites[i], dT, maxFrame)
  {
    seq(|sprites|, i requires 0 <= i < |sprites| => UpdateAnimData(sprites[i], dT, maxFrame))
  }

  /** What the frame shows once the collision check has run. */
  function OutcomeOf(s: State): (o: Outcome)
    ensures o == Lose <==> s.collision
    ensures o == Win <==> !s.collision && s.scarfy.pos.x >= s.finishLine
    ensures o == Playing <==> !s.collision && s.scarfy.pos.x < s.finishLine
  {
    if s.collision then Lose
    else if s.scarfy.pos.x >= s.finishLine then Win
    else Playing
  }

  /** What holds of the loop's state at the top of every frame. */
  predicate Inv(s: State, tex: Textures)
  {
    NebulaeOk(s.nebulae, s.finishLine, tex) &&
    PlayerOk(s.scarfy, tex) &&
    VelocityOk(s.velocity, s.isInAir) &&
    ParallaxOk(s, tex)
  }

  /** Ten nebulae, 400 px apart with the last on the finish line, all on the
      bottom row at the sheet's cell size, each animating consistently. */
  predicate NebulaeOk(nebulae: seq<AnimData>, finishLine: real, tex: Textures)
  {
    |nebulae| == SizeOfNebulae &&
    forall i :: 0 <= i < SizeOfNebulae ==> NebulaOk(nebulae[i], i, finishLine, tex)
  }

  /** The `i`-th nebula is where and what NebulaeOk says. */
  predicate NebulaOk(nebula: AnimData, i: int, finishLine: real, tex: Textures)
  {
    nebula.pos.x == finishLine - ((SizeOfNebulae - 1 - i) * NebulaSpacing) as real &&
    nebula.pos.y == WindowHeight as real - (tex.nebulaHeight / 8) as real &&
    nebula.rec.width == (tex.nebulaWidth / 8) as real &&
    nebula.rec.height == (tex.nebulaHeight / 8) as real &&
    SpriteOk(nebula, NebulaMaxFrame)
  }

  /** The player keeps its cell size and animates consistently. */
  predicate PlayerOk(scarfy: AnimData, tex: Textures)
  {
    scarfy.rec.width == (tex.scarfyWidth / 6) as real &&
    scarfy.rec.height == tex.scarfyHeight as real &&
    SpriteOk(scarfy, ScarfyMaxFrame)
  }

  /** The velocity is a fall speed in the air, and zero or the jump impulse
      on the ground: it never accumulates. */
  predicate VelocityOk(velocity: int, isInAir: bool)
  {
    (isInAir ==> velocity >= 0) &&
    (!isInAir ==> velocity == 0 || velocity == Trunc(JumpVel))
  }

  /** Each parallax offset stays within one reset period. */
  predicate ParallaxOk(s: State, tex: Textures)
  {
    -2.0 * tex.backgroundWidth as real < s.bgX <= 0.0 &&
    -2.0 * tex.midgroundWidth as real < s.mgX <= 0.0 &&
    -2.0 * tex.foregroundWidth as real < s.fgX <= 0.0
  }

  /** One sprite's animation fields are consistent: counter in range, clock
      below its period, sheet column one step behind the counter. */
  predicate SpriteOk(d: AnimData, maxFrame: nat)
  {
    0 <= d.frame <= maxFrame && ShowsPrevious(d, maxFrame) &&
    d.updateTime == FrameUpdateTime && 0.0 <= d.runningTime < d.updateTime
  }

  lemma SpriteOkStep(d: AnimData, dT: real, maxFrame: nat)
    requires SpriteOk(d, maxFrame) && dT >= 0.0
    ensures SpriteOk(UpdateAnimData(d, dT, maxFrame), maxFrame)
  {
    UpdateKeepsShowsPrevious(d, dT, maxFrame);
  }

  lemma NebulaeOkStep(nebulae: seq<AnimData>, finishLine: real, tex: Textures, dT: real)
    requires NebulaeOk(nebulae, finishLine, tex) && dT >= 0.0
    ensures NebulaeOk(NebulaeAfter(nebulae, dT), finishLine + NebVel as real * dT, tex)
  {
    var r := NebulaeAfter(nebulae, dT);
    forall i | 0 <= i < SizeOfNebulae
      ensures NebulaOk(r[i], i, finishLine + NebVel as real * dT, tex)
    {
      NebulaOkStep(nebulae[i], i, finishLine, tex, dT);
    }
  }

  lemma NebulaOkStep(nebula: AnimData, i: int, finishLine: real, tex: Textures, dT: real)
    requires NebulaOk(nebula, i, finishLine, tex) && dT >= 0.0
    ensures NebulaOk(UpdateAnimData(Shifted(nebula, NebVel as real * dT), dT, NebulaMaxFrame),
                     i, finishLine + NebVel as real * dT, tex)
  {
    SpriteOkStep(Shifted(nebula, NebVel as real * dT), dT, NebulaMaxFrame);
  }

  lemma PlayerOkStep(scarfy: AnimData, tex: Textures, velocity: int, isInAir: bool, input: Input)
    requires PlayerOk(scarfy, tex) && input.dT >= 0.0
    ensures PlayerOk(PlayerAfter(scarfy, velocity, isInAir, input), tex)
  {
    var r := PlayerAfter(scarfy, velocity, isInAir, input);
    if !isInAir {
      SpriteOkStep(scarfy.(pos := r.pos), input.dT, ScarfyMaxFrame);
    }
  }

  /** A frame with a non-negative frame time keeps the invariant. */
  lemma FramePreservesInv(s: State, tex: Textures, input: Input)
    requires tex.Loaded() && Inv(s, tex) && input.dT >= 0.0
    ensures Inv(Frame(s, tex, input), tex)
  {
    var r := Frame(s, tex, input);
    NebulaeOkStep(s.nebulae, s.finishLine, tex, input.dT);
    PlayerOkStep(s.scarfy, tex, r.velocity, r.isInAir, input);
    assert r.nebulae == NebulaeAfter(s.nebulae, input.dT);
    assert r.scarfy == PlayerAfter(s.scarfy, r.velocity, r.isInAir, input);
  }

  /** The state after one frame per entry of `inputs`, in order. */
  function Run(s: State, tex: Textures, inputs: seq<Input>): State
    decreases |inputs|
  {
    if inputs == [] then s else Run(Frame(s, tex, inputs[0]), tex, inputs[1..])
  }

  /** The invariant holds at every frame of any run. */
  lemma {:induction false} RunPreservesInv(s: State, tex: Textures, inputs: seq<Input>)
    requires tex.Loaded() && Inv(s, tex)
    requires forall k :: 0 <= k < |inputs| ==> inputs[k].dT >= 0.0
    ensures Inv(Run(s, tex, inputs), tex)
    decreases |inputs|
  {
    if inputs != [] {
      FramePreservesInv(s, tex, inputs[0]);
      RunPreservesInv(Frame(s, tex, inputs[0]), tex, inputs[1..]);
    }
  }

  /** Once the player has been hit, the game stays lost for good. */
  lemma {:induction false} LoseIsFinal(s: State, tex: Textures, inputs: seq<Input>)
    requires s.collision
    ensures Run(s, tex, inputs).collision
    ensures OutcomeOf(Run(s, tex, inputs)) == Lose
    decreases |inputs|
  {
    if inputs != [] {
      LoseIsFinal(Frame(s, tex, inputs[0]), tex, inputs[1..]);
    }
  }

  /** A win is not final: the outcome is recomputed every frame, so a
      player standing exactly on the finish line who holds A (10 px back per
      frame, while the line moves `300 * dT`, less than that for
      `dT < 1/30`) is playing again in the next frame. The state is the
      start state with the player moved onto the line; it satisfies Inv. */
  lemma WinIsNotFinal()
    ensures var tex := Textures(400, 400, 600, 100, 100, 100, 100);
            var start := Initial(tex);
            var s := start.(scarfy := start.scarfy.(pos := start.scarfy.pos.(x := start.finishLine)));
            Inv(s, tex) && OutcomeOf(s) == Win &&
            OutcomeOf(Frame(s, tex, Input(0.001, false, false, true))) == Playing
  {
    var tex := Textures(400, 400, 600, 100, 100, 100, 100);
    var start := Initial(tex);
    var s := start.(scarfy := start.scarfy.(pos := start.scarfy.pos.(x := start.finishLine)));
    var input := Input(0.001, false, false, true);
    var r := Frame(s, tex, input);
    assert IsOnGround(s.scarfy, WindowHeight);
    FrameScrolls(s, tex, input);
    FrameMovesPlayer(s, tex, input);
    FrameGround(s, tex, input);
    assert r.nebulae == NebulaeAfter(s.nebulae, input.dT);
    assert r.scarfy.pos.y == 280.0 && r.scarfy.rec.height == 100.0;
    // the 50 px cells are smaller than the padding, so no hit-box reaches the player
    forall i | 0 <= i < |r.nebulae|
      ensures !Hits(r.nebulae[i], r.scarfy)
    {
      assert r.nebulae[i].pos.y == 330.0 && r.nebulae[i].rec.height == 50.0;
    }
    FrameLatchesCollision(s, tex, input);
  }

  /** Sum of the frame times of a run. */
  function Duration(inputs: seq<Input>): real
    decreases |inputs|
  {
    if inputs == [] then 0.0 else inputs[0].dT + Duration(inputs[1..])
  }

  /** Every nebula and the finish line have moved by `nebVel` times the
      total elapsed time, the same distance for all of them. */
  lemma {:induction false} RunScrollsTogether(s: State, tex: Textures, inputs: seq<Input>)
    ensures |Run(s, tex, inputs).nebulae| == |s.nebulae|
    ensures Run(s, tex, inputs).finishLine == s.finishLine + NebVel as real * Duration(inputs)
    ensures forall i :: 0 <= i < |s.nebulae| ==>
      Run(s, tex, inputs).nebulae[i].pos.x == s.nebulae[i].pos.x + NebVel as real * Duration(inputs)
    decreases |inputs|
  {
    if inputs != [] {
      var next := Frame(s, tex, inputs[0]);
      RunScrollsTogether(next, tex, inputs[1..]);
    }
  }

  /** A player standing exactly on the ground who never presses jump stays
      there, never airborne and with zero velocity, whatever else happens. */
  lemma {:induction false} StaysGroundedWithoutJump(s: State, tex: Textures, inputs: seq<Input>)
    requires s.scarfy.pos.y == WindowHeight as real - s.scarfy.rec.height
    requires forall k :: 0 <= k < |inputs| ==> !inputs[k].jumpPressed
    ensures Run(s, tex, inputs).scarfy.pos.y == s.scarfy.pos.y
    ensures Run(s, tex, inputs).scarfy.rec.height == s.scarfy.rec.height
    ensures inputs != [] ==> !Run(s, tex, inputs).isInAir && Run(s, tex, inputs).velocity == 0
    decreases |inputs|
  {
    if inputs != [] {
      var next := Frame(s, tex, inputs[0]);
      assert next.scarfy.pos.y == s.scarfy.pos.y && next.scarfy.rec.height == s.scarfy.rec.height;
      StaysGroundedWithoutJump(next, tex, inputs[1..]);
    }
  }
}
