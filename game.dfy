/** The game loop's own state, updated in place once per frame: the nebulae
    array, the player's record and the scalars around them. */
module Game {
  import opened Anim
  import opened Collision
  import opened World

  class Dasher {
    /** Sizes of the loaded textures, fixed for the whole run. */
    const tex: Textures

    var nebulae: array<AnimData>
    var scarfyData: AnimData
    var velocity: int
    var isInAir: bool
    var finishLine: real
    var bgX: real
    var mgX: real
    var fgX: real
    var collision: bool

    /** The fields as a value of the frame model. */
    function Snapshot(): State
      reads this, nebulae
    {
      State(nebulae[..], scarfyData, velocity, isInAir, finishLine, bgX, mgX, fgX, collision)
    }

    ghost predicate Valid()
      reads this, nebulae
    {
      nebulae.Length == SizeOfNebulae && tex.Loaded() && Inv(Snapshot(), tex)
    }

    /** Sets up the nebulae, the finish line, the player and the offsets as
        the program does before entering its loop. */
    constructor (textures: Textures)
      requires textures.Loaded()
      ensures Valid() && fresh(nebulae)
      ensures tex == textures && Snapshot() == Initial(textures)
    {
      tex := textures;
      var a := new AnimData[SizeOfNebulae];
      var i := 0;
      while i < SizeOfNebulae
        invariant 0 <= i <= SizeOfNebulae
        invariant forall k :: 0 <= k < i ==> a[k] == Initial(textures).nebulae[k]
      {
        a[i] := AnimData(Rect(0.0, 0.0, (textures.nebulaWidth / 8) as real,
                              (textures.nebulaHeight / 8) as real),
                         Vec2(WindowWidth + (i * NebulaSpacing) as real,
                              WindowHeight as real - (textures.nebulaHeight / 8) as real),
                         0, FrameUpdateTime, 0.0);
        i := i + 1;
      }
      nebulae := a;
      finishLine := a[SizeOfNebulae - 1].pos.x;
      var scarfyRec := Rect(0.0, 0.0, (textures.scarfyWidth / 6) as real, textures.scarfyHeight as real);
      scarfyData := AnimData(scarfyRec,
                             Vec2(WindowWidth / 2.0 - scarfyRec.width / 2.0,
                                  WindowHeight as real - scarfyRec.height),
                             0, FrameUpdateTime, 0.0);
      velocity, isInAir := 0, false;
      bgX, mgX, fgX := 0.0, 0.0, 0.0;
      collision := false;
      new;
      assert nebulae[..] == Initial(textures).nebulae;
    }

    /** One iteration of the game loop with frame time `dT` and the keys as
        polled; returns what the frame shows. The state keeps being simulated
        after the game is won or lost. */
    method Step(dT: real, jumpPressed: bool, rightDown: bool, leftDown: bool) returns (outcome: Outcome)
      requires Valid() && dT >= 0.0
      modifies this, nebulae
      ensures Valid() && nebulae == old(nebulae)
      ensures Snapshot() == Frame(old(Snapshot()), tex, Input(dT, jumpPressed, rightDown, leftDown))
      ensures outcome == OutcomeOf(Snapshot())
      ensures old(collision) ==> collision && outcome == Lose
    {
      ghost var before := Snapshot();
      Simulate(dT, jumpPressed, rightDown, leftDown);
      if collision {
        outcome := Lose;
      } else if scarfyData.pos.x >= finishLine {
        outcome := Win;
      } else {
        outcome := Playing;
      }
      FramePreservesInv(before, tex, Input(dT, jumpPressed, rightDown, leftDown));
    }

    /** Everything the frame changes: parallax scroll, ground check and jump,
        nebula and finish-line scroll, player motion, animation and the
        collision latch, in the program's order. */
    method Simulate(dT: real, jumpPressed: bool, rightDown: bool, leftDown: bool)
      requires nebulae.Length == SizeOfNebulae
      modifies this, nebulae
      ensures nebulae == old(nebulae)
      ensures Snapshot() == Frame(old(Snapshot()), tex, Input(dT, jumpPressed, rightDown, leftDown))
    {
      ghost var before := Snapshot();
      ghost var input := Input(dT, jumpPressed, rightDown, leftDown);
      ScrollParallax(dT);
      GroundCheck(dT, jumpPressed);
      MoveNebulae(dT);
      ghost var shifted := nebulae[..];
      finishLine := finishLine + NebVel as real * dT;
      MovePlayer(dT, rightDown, leftDown);
      if !isInAir {
        scarfyData := UpdateAnimData(scarfyData, dT, ScarfyMaxFrame);
      }
      assert scarfyData == PlayerAfter(before.scarfy, velocity, isInAir, input);
      AnimateNebulae(dT);
      assert nebulae[..] == AnimateAll(shifted, dT, NebulaMaxFrame);
      CheckCollisions();
      FrameByParts(before, tex, input, Snapshot());
    }

    /** Moves the three parallax layers left at 20, 40 and 80 px/s, putting
        each back at the origin once it has scrolled twice its width. */
    method ScrollParallax(dT: real)
      modifies this`bgX, this`mgX, this`fgX
      ensures bgX == Scroll(old(bgX), XNumber, dT, tex.backgroundWidth)
      ensures mgX == Scroll(old(mgX), XNumber * 2.0, dT, tex.midgroundWidth)
      ensures fgX == Scroll(old(fgX), XNumber * 4.0, dT, tex.foregroundWidth)
    {
      var xNumber := XNumber;
      bgX := bgX - xNumber * dT;
      mgX := mgX - xNumber * 2.0 * dT;
      fgX := fgX - xNumber * 4.0 * dT;
      if bgX <= (-tex.backgroundWidth * 2) as real {
        bgX := 0.0;
      }
      if mgX <= (-tex.midgroundWidth * 2) as real {
        mgX := 0.0;
      }
      if fgX <= (-tex.foregroundWidth * 2) as real {
        fgX := 0.0;
      }
    }

    /** The ground check followed by the jump test. */
    method GroundCheck(dT: real, jumpPressed: bool)
      modifies this`velocity, this`isInAir
      ensures isInAir == !IsOnGround(scarfyData, WindowHeight)
      ensures velocity == NewVelocity(!isInAir, jumpPressed, dT)
      // in the air the velocity is overwritten, not accumulated
      ensures isInAir ==> velocity == Trunc(Gravity * dT)
      ensures !isInAir ==> velocity == if jumpPressed then Trunc(JumpVel) else 0
    {
      if IsOnGround(scarfyData, WindowHeight) {
        velocity := 0;
        isInAir := false;
      } else {
        velocity := Trunc(Gravity * dT);
        isInAir := true;
      }
      if jumpPressed && !isInAir {
        velocity := Trunc(velocity as real + JumpVel);
      }
    }

    /** Moves every nebula by `nebVel * dT`, in place. */
    method MoveNebulae(dT: real)
      requires nebulae.Length == SizeOfNebulae
      modifies nebulae
      ensures nebulae[..] == ShiftAll(old(nebulae[..]), NebVel as real * dT)
    {
      var i := 0;
      while i < SizeOfNebulae
        invariant 0 <= i <= SizeOfNebulae
        invariant forall k :: 0 <= k < i ==> nebulae[k] == Shifted(old(nebulae[k]), NebVel as real * dT)
        invariant forall k :: i <= k < SizeOfNebulae ==> nebulae[k] == old(nebulae[k])
      {
        nebulae[i] := nebulae[i].(pos := nebulae[i].pos.(x := nebulae[i].pos.x + NebVel as real * dT));
        i := i + 1;
      }
    }

    /** Applies the vertical velocity and the move keys to the player; with
        both keys held the two moves cancel out. */
    method MovePlayer(dT: real, rightDown: bool, leftDown: bool)
      modifies this`scarfyData
      ensures scarfyData == Moved(old(scarfyData), velocity, dT, rightDown, leftDown)
    {
      scarfyData := scarfyData.(pos := scarfyData.pos.(y := scarfyData.pos.y + velocity as real * dT));
      if rightDown {
        scarfyData := scarfyData.(pos := scarfyData.pos.(x := scarfyData.pos.x + ScarfySpeed as real));
      }
      if leftDown {
        scarfyData := scarfyData.(pos := scarfyData.pos.(x := scarfyData.pos.x - ScarfySpeed as real));
      }
    }

    /** Advances every nebula's animation, with 7 as the last frame. */
    method AnimateNebulae(dT: real)
      requires nebulae.Length == SizeOfNebulae
      modifies nebulae
      ensures nebulae[..] == AnimateAll(old(nebulae[..]), dT, NebulaMaxFrame)
    {
      var i := 0;
      while i < SizeOfNebulae
        invariant 0 <= i <= SizeOfNebulae
        invariant forall k :: 0 <= k < i ==> nebulae[k] == UpdateAnimData(old(nebulae[k]), dT, NebulaMaxFrame)
        invariant forall k :: i <= k < SizeOfNebulae ==> nebulae[k] == old(nebulae[k])
      {
        nebulae[i] := UpdateAnimData(nebulae[i], dT, NebulaMaxFrame);
        i := i + 1;
      }
    }

    /** Tests the player against every nebula's padded hit-box and latches
        `collision` on a hit; it is never cleared. */
    method CheckCollisions()
      requires nebulae.Length == SizeOfNebulae
      modifies this`collision
      ensures collision <==> old(collision) || AnyHit(nebulae[..], scarfyData)
    {
      var i := 0;
      while i < SizeOfNebulae
        invariant 0 <= i <= SizeOfNebulae
        invariant collision <==> old(collision) || exists k :: 0 <= k < i && Hits(nebulae[k], scarfyData)
      {
        var hit := CheckCollisionRecs(NebulaHitBox(nebulae[i]), DrawBox(scarfyData));
        assert hit == Hits(nebulae[i], scarfyData);
        if hit {
          collision := true;
        }
        assert collision <==> old(collision) || exists k :: 0 <= k < i + 1 && Hits(nebulae[k], scarfyData);
        i := i + 1;
      }
      assert AnyHit(nebulae[..], scarfyData) <==> exists k :: 0 <= k < SizeOfNebulae && Hits(nebulae[k], scarfyData);
    }
  }
}
