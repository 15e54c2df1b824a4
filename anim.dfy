/** Sprite-sheet animation of Dapper Dasher: the AnimData record, the ground
    test and the frame-advance function, with what repeated calls do. */
module Anim {

  /** raylib's Rectangle: top-left corner and size, in pixels. */
  datatype Rect = Rect(x: real, y: real, width: real, height: real)

  /** raylib's Vector2. */
  datatype Vec2 = Vec2(x: real, y: real)

  /** Animation state of one sprite: `rec` is the cell of the sprite sheet
      that is drawn, `pos` where it is drawn, `frame` the next cell to show,
      `runningTime` the seconds since the last advance. */
  datatype AnimData = AnimData(rec: Rect, pos: Vec2, frame: int, updateTime: real, runningTime: real)

  /** The sprite stands on (or has sunk below) the bottom of a window of
      height `windowHeight`. */
  predicate IsOnGround(data: AnimData, windowHeight: int): (r: bool)
    ensures r <==> data.pos.y + data.rec.height >= windowHeight as real
  {
    data.pos.y >= windowHeight as real - data.rec.height
  }

  /** The frame-advance step of one sprite, applied to a copy. */
  function UpdateAnimData(data: AnimData, deltaTime: real, maxFrame: int): (r: AnimData)
    // only the clock, the counter and the sheet column can change
    ensures r.pos == data.pos && r.updateTime == data.updateTime
    ensures r.rec.y == data.rec.y && r.rec.width == data.rec.width && r.rec.height == data.rec.height
    // below the threshold nothing but the clock moves, and by exactly deltaTime
    ensures !Advances(data, deltaTime) ==>
      r == data.(runningTime := data.runningTime + deltaTime)
    // at the threshold the clock restarts, the sheet shows the old counter and
    // the counter moves one step round the cycle 0..maxFrame
    ensures Advances(data, deltaTime) ==>
      r.runningTime == 0.0 && r.rec.x == data.frame as real * data.rec.width
    // the counter stays in range, and so does the clock
    ensures 0 <= data.frame <= maxFrame ==> 0 <= r.frame <= maxFrame
    ensures 0.0 <= deltaTime && 0.0 <= data.runningTime < data.updateTime ==>
      0.0 <= r.runningTime < r.updateTime
  {
    var running := data.runningTime + deltaTime;
    if running >= data.updateTime then
      var next := data.frame + 1;
      data.(runningTime := 0.0,
            rec := data.rec.(x := data.frame as real * data.rec.width),
            frame := if next > maxFrame then 0 else next)
    else
      data.(runningTime := running)
  }

  /** An advancing call moves the counter one step round the cycle 0..maxFrame. */
  lemma AdvanceIsSuccessor(data: AnimData, deltaTime: real, maxFrame: int)
    requires Advances(data, deltaTime) && 0 <= data.frame <= maxFrame
    ensures UpdateAnimData(data, deltaTime, maxFrame).frame == (data.frame + 1) % (maxFrame + 1)
  {
    if data.frame < maxFrame {
      ModUnique(data.frame + 1, 0, data.frame + 1, maxFrame + 1);
    } else {
      ModUnique(maxFrame + 1, 1, 0, maxFrame + 1);
    }
  }

  /** Where a sprite is drawn plays no part in its animation. */
  lemma UpdateIgnoresPosition(data: AnimData, pos: Vec2, deltaTime: real, maxFrame: int)
    ensures UpdateAnimData(data.(pos := pos), deltaTime, maxFrame) ==
            UpdateAnimData(data, deltaTime, maxFrame).(pos := pos)
  {
  }

  /** The call UpdateAnimData(data, deltaTime, _) advances the frame. */
  predicate Advances(data: AnimData, deltaTime: real)
  {
    data.runningTime + deltaTime >= data.updateTime
  }

  /** The counter value shown just before `frame` in the cycle 0..maxFrame. */
  function Previous(frame: int, maxFrame: nat): int
  {
    if frame == 0 then maxFrame else frame - 1
  }

  /** The sheet column is the one for the frame before the counter, or, before
      the first advance, column 0 with the counter at 0. */
  predicate ShowsPrevious(data: AnimData, maxFrame: nat)
  {
    data.rec.x == Previous(data.frame, maxFrame) as real * data.rec.width ||
    (data.frame == 0 && data.rec.x == 0.0)
  }

  /** One call keeps the column one step behind the counter. */
  lemma UpdateKeepsShowsPrevious(data: AnimData, deltaTime: real, maxFrame: nat)
    requires 0 <= data.frame <= maxFrame && ShowsPrevious(data, maxFrame)
    ensures ShowsPrevious(UpdateAnimData(data, deltaTime, maxFrame), maxFrame)
  {
    var r := UpdateAnimData(data, deltaTime, maxFrame);
    if Advances(data, deltaTime) {
      if data.frame == maxFrame {
        assert r.frame == 0;
        assert Previous(0, maxFrame) == maxFrame;
      } else {
        assert r.frame == data.frame + 1;
        assert Previous(data.frame + 1, maxFrame) == data.frame;
      }
    }
  }

  /** The record after UpdateAnimData has been called once per entry of
      `deltas`, in order, as the game loop does frame after frame. */
  function Animate(data: AnimData, deltas: seq<real>, maxFrame: int): AnimData
    decreases |deltas|
  {
    if deltas == [] then data
    else Animate(UpdateAnimData(data, deltas[0], maxFrame), deltas[1..], maxFrame)
  }

  /** How many of those calls advanced the frame. */
  function Ticks(data: AnimData, deltas: seq<real>, maxFrame: int): nat
    decreases |deltas|
  {
    if deltas == [] then 0
    else (if Advances(data, deltas[0]) then 1 else 0) +
         Ticks(UpdateAnimData(data, deltas[0], maxFrame), deltas[1..], maxFrame)
  }

  /** Sum of a sequence of frame times. */
  function Elapsed(deltas: seq<real>): real
    decreases |deltas|
  {
    if deltas == [] then 0.0 else deltas[0] + Elapsed(deltas[1..])
  }

  lemma ModSuccessor(a: int, b: nat, m: int)
    requires 0 <= a < m
    ensures ((a + 1) % m + b) % m == (a + 1 + b) % m
  {
    if a + 1 < m {
      ModUnique(a + 1, 0, a + 1, m);
    } else {
      ModUnique(m, 1, 0, m);
      ModAddDivisor(b, m);
    }
  }

  lemma ModAddDivisor(b: int, m: int)
    requires m > 0
    ensures (b + m) % m == b % m
  {
    var q, r := b / m, b % m;
    assert b == q * m + r;
    assert b + m == (q + 1) * m + r;
    ModUnique(b + m, q + 1, r, m);
  }

  /** Euclidean division has one quotient and one remainder. */
  lemma ModUnique(x: int, q: int, r: int, m: int)
    requires m > 0 && 0 <= r < m && x == q * m + r
    ensures x % m == r
  {
    var q', r' := x / m, x % m;
    assert x == q' * m + r';
    if q < q' {
      assert (q' - q) * m == q' * m - q * m;
      MulAtLeast(q' - q, m);
    } else if q > q' {
      assert (q - q') * m == q * m - q' * m;
      MulAtLeast(q - q', m);
    }
  }

  lemma MulAtLeast(k: int, m: int)
    requires k >= 1 && m > 0
    ensures k * m >= m
  {
    assert k * m == (k - 1) * m + m;
  }

  /** The counter moves exactly once per advancing call, round the cycle. */
  lemma {:induction false} AnimateCountsTicks(data: AnimData, deltas: seq<real>, maxFrame: nat)
    requires 0 <= data.frame <= maxFrame
    ensures Animate(data, deltas, maxFrame).frame ==
            (data.frame + Ticks(data, deltas, maxFrame)) % (maxFrame + 1)
    decreases |deltas|
  {
    if deltas != [] {
      var m := maxFrame + 1;
      var next := UpdateAnimData(data, deltas[0], maxFrame);
      var rest := Ticks(next, deltas[1..], maxFrame);
      assert Animate(data, deltas, maxFrame) == Animate(next, deltas[1..], maxFrame);
      AnimateCountsTicks(next, deltas[1..], maxFrame);
      if Advances(data, deltas[0]) {
        assert Ticks(data, deltas, maxFrame) == 1 + rest;
        AdvanceIsSuccessor(data, deltas[0], maxFrame);
        ModSuccessor(data.frame, rest, m);
      } else {
        assert Ticks(data, deltas, maxFrame) == rest;
        assert next.frame == data.frame;
      }
    }
  }

  /** Across any number of calls the counter stays in 0..maxFrame and the
      column shown stays one step behind it. */
  lemma {:induction false} AnimateKeepsInvariant(data: AnimData, deltas: seq<real>, maxFrame: nat)
    requires 0 <= data.frame <= maxFrame && ShowsPrevious(data, maxFrame)
    ensures 0 <= Animate(data, deltas, maxFrame).frame <= maxFrame
    ensures ShowsPrevious(Animate(data, deltas, maxFrame), maxFrame)
    decreases |deltas|
  {
    if deltas != [] {
      UpdateKeepsShowsPrevious(data, deltas[0], maxFrame);
      AnimateKeepsInvariant(UpdateAnimData(data, deltas[0], maxFrame), deltas[1..], maxFrame);
    }
  }

  /** While less than the remaining `updateTime - runningTime` has elapsed,
      no call advances and the clock holds exactly the elapsed time. */
  lemma {:induction false} NoAdvanceBeforeUpdateTime(data: AnimData, deltas: seq<real>, maxFrame: int)
    requires forall i :: 0 <= i < |deltas| ==> deltas[i] >= 0.0
    requires data.runningTime + Elapsed(deltas) < data.updateTime
    ensures Ticks(data, deltas, maxFrame) == 0
    ensures Animate(data, deltas, maxFrame) ==
            data.(runningTime := data.runningTime + Elapsed(deltas))
    decreases |deltas|
  {
    if deltas != [] {
      ElapsedNonNegative(deltas[1..]);
      var next := UpdateAnimData(data, deltas[0], maxFrame);
      assert next == data.(runningTime := data.runningTime + deltas[0]);
      NoAdvanceBeforeUpdateTime(next, deltas[1..], maxFrame);
    }
  }

  lemma {:induction false} ElapsedNonNegative(deltas: seq<real>)
    requires forall i :: 0 <= i < |deltas| ==> deltas[i] >= 0.0
    ensures Elapsed(deltas) >= 0.0
    decreases |deltas|
  {
    if deltas != [] {
      ElapsedNonNegative(deltas[1..]);
    }
  }

  /** Fields other than the clock, the counter and the column are never
      touched, however many calls are made. */
  lemma {:induction false} AnimateKeepsPlacement(data: AnimData, deltas: seq<real>, maxFrame: int)
    ensures Animate(data, deltas, maxFrame).pos == data.pos
    ensures Animate(data, deltas, maxFrame).updateTime == data.updateTime
    ensures Animate(data, deltas, maxFrame).rec.y == data.rec.y
    ensures Animate(data, deltas, maxFrame).rec.width == data.rec.width
    ensures Animate(data, deltas, maxFrame).rec.height == data.rec.height
    decreases |deltas|
  {
    if deltas != [] {
      AnimateKeepsPlacement(UpdateAnimData(data, deltas[0], maxFrame), deltas[1..], maxFrame);
    }
  }
}
