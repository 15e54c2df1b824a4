/** Hit-boxes of Dapper Dasher: raylib's rectangle test, the nebula's hit-box
    shrunk by a fixed padding on every side, and the player's full box. */
module Collision {
  import opened Anim

  /** Padding taken off each side of a nebula's hit-box. */
  const Pad: real := 50.0

  /** Axis-aligned rectangle overlap, as raylib's CheckCollisionRecs computes
      it: the open intervals overlap on both axes, so rectangles that only
      touch along an edge do not collide. */
  predicate CheckCollisionRecs(a: Rect, b: Rect): (r: bool)
    // for rectangles of positive size: their intersection has positive
    // width and positive height (the padded hit-box can be empty or
    // inverted, where only the four comparisons below apply)
    ensures a.width > 0.0 && a.height > 0.0 && b.width > 0.0 && b.height > 0.0 ==>
      (r <==> (Max(a.x, b.x) < Min(a.x + a.width, b.x + b.width) &&
               Max(a.y, b.y) < Min(a.y + a.height, b.y + b.height)))
  {
    a.x < b.x + b.width && a.x + a.width > b.x &&
    a.y < b.y + b.height && a.y + a.height > b.y
  }

  function Max(u: real, v: real): real { if u >= v then u else v }
  function Min(u: real, v: real): real { if u <= v then u else v }

  /** The nebula's draw rectangle with Pad taken off every side. */
  function NebulaHitBox(nebula: AnimData): (r: Rect)
    ensures r.x - nebula.pos.x == Pad && r.y - nebula.pos.y == Pad
    ensures (nebula.pos.x + nebula.rec.width) - (r.x + r.width) == Pad
    ensures (nebula.pos.y + nebula.rec.height) - (r.y + r.height) == Pad
  {
    Rect(nebula.pos.x + Pad, nebula.pos.y + Pad,
         nebula.rec.width - 2.0 * Pad, nebula.rec.height - 2.0 * Pad)
  }

  /** Where a sprite is drawn: its position with its sheet cell's size. */
  function DrawBox(sprite: AnimData): Rect
  {
    Rect(sprite.pos.x, sprite.pos.y, sprite.rec.width, sprite.rec.height)
  }

  /** The player touches this nebula in the sense of the game. */
  predicate Hits(nebula: AnimData, player: AnimData)
  {
    CheckCollisionRecs(NebulaHitBox(nebula), DrawBox(player))
  }

  /** A hit is a true overlap of the player with the nebula's padded box:
      the player reaches more than Pad into the nebula's drawn rectangle on
      both axes, measured from each side. */
  lemma HitMeansDeepOverlap(nebula: AnimData, player: AnimData)
    ensures Hits(nebula, player) <==>
      player.pos.x + player.rec.width > nebula.pos.x + Pad &&
      player.pos.x < nebula.pos.x + nebula.rec.width - Pad &&
      player.pos.y + player.rec.height > nebula.pos.y + Pad &&
      player.pos.y < nebula.pos.y + nebula.rec.height - Pad
  {
  }

  /** No false positives: a hit implies the drawn rectangles overlap, so a
      player clear of the nebula's drawn rectangle is never hit. */
  lemma HitImpliesDrawOverlap(nebula: AnimData, player: AnimData)
    ensures Hits(nebula, player) ==> CheckCollisionRecs(DrawBox(nebula), DrawBox(player))
  {
  }
}
