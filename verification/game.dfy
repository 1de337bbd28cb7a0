/**
 Player controls: turning from mouse motion and moving from the held keys,
 gated by grid occupancy. src/engine/game.cpp and the inline copy in
 include/game.h have identical bodies; this one model serves both.
 The cosine and sine of the heading are given reals.
 */
module Game {
  import opened CppArith
  import opened Utility
  import Levels

  const MapWidth: int := 12
  const MapHeight: int := 12
  /** std::max(MAP_WIDTH, MAP_HEIGHT): the probe bound of each march. */
  const MaxDepth: int := if MapWidth < MapHeight then MapHeight else MapWidth

  datatype Player = Player(x: real, y: real, angle: real)

  datatype Keys = Keys(w: bool, s: bool)

  /**
   The turn in whole degrees for a horizontal mouse motion dx over dt
   milliseconds: `dx / 25` is integer division, the product is truncated,
   and any motion turns by at least one degree in its own direction.
   */
  function TurnAmount(dx: int, dt: real): (d: int)
    ensures dx > 0 ==> d >= 1
    ensures dx < 0 ==> d <= -1
    ensures dx == 0 ==> d == 0
  {
    var scaled := Trunc(CDiv(dx, 25) as real * 0.2 * dt);
    if dx > 0 then Max(1, scaled)
    else if dx < 0 then Min(-1, scaled)
    else 0
  }

  /** Game::mouse_look: the heading turns against the motion and is clamped; position is kept. */
  function MouseLook(p: Player, dx: int, dt: real): (r: Player)
    ensures r.x == p.x && r.y == p.y
    ensures var d := TurnAmount(dx, dt);
      r.angle == p.angle - d as real || r.angle == p.angle - d as real + 360.0 || r.angle == p.angle - d as real - 360.0
    ensures var d := TurnAmount(dx, dt);
      0.0 <= p.angle < 360.0 && -360 <= d <= 360 ==> 0.0 <= r.angle < 360.0
  {
    p.(angle := ClampToUnitCircle(p.angle - TurnAmount(dx, dt) as real))
  }

  /**
   Below 25 units of motion the integer division yields 0, so the turn is
   exactly one degree whatever dt is.
   */
  lemma SmallMotionTurnsOneDegree(dx: int, dt: real)
    ensures 0 < dx < 25 ==> TurnAmount(dx, dt) == 1
    ensures -25 < dx < 0 ==> TurnAmount(dx, dt) == -1
  {
    if 0 < dx < 25 || -25 < dx < 0 {
      assert CDiv(dx, 25) == 0;
    }
  }

  /** A still mouse leaves the player as it was, once the heading is on the circle. */
  lemma StillMouseKeepsPlayer(p: Player, dt: real)
    requires 0.0 <= p.angle < 360.0
    ensures MouseLook(p, 0, dt) == p
  {
  }

  /** The probe offset for one direction component: -10 when negative, +10 otherwise (zero included). */
  function ProbeOffset(component: real): (o: int)
    ensures o == -10 || o == 10
    ensures o < 0 <==> component < 0.0
  {
    if component < 0.0 then -10 else 10
  }

  /** The grid coordinate of a world coordinate: `(int)(v / 64.0)`. */
  function GridCoord(v: real): int
  {
    Trunc(v / 64.0)
  }

  /** The linear index of grid cell (column, row), as keys_handler computes it with MAP_WIDTH. */
  function MapIndex(column: int, row: int): int
  {
    row * MapWidth + column
  }

  /** Whether the probed cell is free; the source does not bounds-check the index. */
  predicate Free(l: Levels.Level, i: int)
    requires 0 <= i < |l.data|
  {
    Levels.At(l, i) == 0
  }

  predicate InLevel(l: Levels.Level, i: int)
  {
    0 <= i < |l.data|
  }

  /** The fixed facts keys_handler computes on entry. */
  datatype Frame = Frame(dx: real, dy: real, ox: int, oy: int, mx: int, my: int)

  /** dx = cos(heading), dy = -sin(heading); offsets and the current cell from the entry position. */
  function EntryFrame(p: Player, cosA: real, sinA: real): Frame
  {
    var dx := cosA;
    var dy := -sinA;
    Frame(dx, dy, ProbeOffset(dx), ProbeOffset(dy), GridCoord(p.x), GridCoord(p.y))
  }

  /** The cells the forward step probes: ahead on x in the entry row, ahead on y in the entry column. */
  function ForwardXProbe(p: Player, f: Frame): int { MapIndex(GridCoord(p.x + f.ox as real), f.my) }
  function ForwardYProbe(p: Player, f: Frame): int { MapIndex(f.mx, GridCoord(p.y + f.oy as real)) }

  /** The cells the backward step probes, from the position after any forward step. */
  function BackwardXProbe(p: Player, f: Frame): int { MapIndex(GridCoord(p.x - f.ox as real), f.my) }
  function BackwardYProbe(p: Player, f: Frame): int { MapIndex(f.mx, GridCoord(p.y - f.oy as real)) }

  /** The w block: each axis advances by 0.2 * dt times its component iff its probe cell is free. */
  function StepForward(l: Levels.Level, p: Player, f: Frame, dt: real): (r: Player)
    requires InLevel(l, ForwardXProbe(p, f)) && InLevel(l, ForwardYProbe(p, f))
    ensures r.angle == p.angle
    ensures Free(l, ForwardXProbe(p, f)) ==> r.x == p.x + 0.2 * dt * f.dx
    ensures !Free(l, ForwardXProbe(p, f)) ==> r.x == p.x
    ensures Free(l, ForwardYProbe(p, f)) ==> r.y == p.y + 0.2 * dt * f.dy
    ensures !Free(l, ForwardYProbe(p, f)) ==> r.y == p.y
  {
    var x := if Levels.At(l, ForwardXProbe(p, f)) == 0 then p.x + 0.2 * dt * f.dx else p.x;
    var y := if Levels.At(l, ForwardYProbe(p, f)) == 0 then p.y + 0.2 * dt * f.dy else p.y;
    Player(x, y, p.angle)
  }

  /** The s block: the same rule with subtraction and the opposite probe offsets. */
  function StepBackward(l: Levels.Level, p: Player, f: Frame, dt: real): (r: Player)
    requires InLevel(l, BackwardXProbe(p, f)) && InLevel(l, BackwardYProbe(p, f))
    ensures r.angle == p.angle
    ensures Free(l, BackwardXProbe(p, f)) ==> r.x == p.x - 0.2 * dt * f.dx
    ensures !Free(l, BackwardXProbe(p, f)) ==> r.x == p.x
    ensures Free(l, BackwardYProbe(p, f)) ==> r.y == p.y - 0.2 * dt * f.dy
    ensures !Free(l, BackwardYProbe(p, f)) ==> r.y == p.y
  {
    var x := if Levels.At(l, BackwardXProbe(p, f)) == 0 then p.x - 0.2 * dt * f.dx else p.x;
    var y := if Levels.At(l, BackwardYProbe(p, f)) == 0 then p.y - 0.2 * dt * f.dy else p.y;
    Player(x, y, p.angle)
  }

  /** The position after the w block (the player itself when w is not held). */
  function AfterForward(l: Levels.Level, p: Player, keys: Keys, f: Frame, dt: real): Player
    requires keys.w ==> InLevel(l, ForwardXProbe(p, f)) && InLevel(l, ForwardYProbe(p, f))
  {
    if keys.w then StepForward(l, p, f, dt) else p
  }

  /** Every cell keys_handler will read lies inside the level data. */
  predicate ProbesInLevel(l: Levels.Level, p: Player, keys: Keys, cosA: real, sinA: real, dt: real)
  {
    var f := EntryFrame(p, cosA, sinA);
    && (keys.w ==> InLevel(l, ForwardXProbe(p, f)) && InLevel(l, ForwardYProbe(p, f)))
    && (keys.s ==>
          var q := AfterForward(l, p, keys, f, dt);
          InLevel(l, BackwardXProbe(q, f)) && InLevel(l, BackwardYProbe(q, f)))
  }

  /** Game::keys_handler: the w block, then the s block on the updated position. */
  function KeysHandler(l: Levels.Level, p: Player, keys: Keys, cosA: real, sinA: real, dt: real): (r: Player)
    requires ProbesInLevel(l, p, keys, cosA, sinA, dt)
    ensures r.angle == p.angle
    ensures !keys.w && !keys.s ==> r == p
  {
    var f := EntryFrame(p, cosA, sinA);
    var q := AfterForward(l, p, keys, f, dt);
    if keys.s then StepBackward(l, q, f, dt) else q
  }

  /** With both keys held and every probed cell free, the two steps cancel. */
  lemma ForwardThenBackCancels(l: Levels.Level, p: Player, cosA: real, sinA: real, dt: real)
    requires ProbesInLevel(l, p, Keys(true, true), cosA, sinA, dt)
    requires forall i :: 0 <= i < |l.data| ==> l.data[i] == 0
    ensures KeysHandler(l, p, Keys(true, true), cosA, sinA, dt) == p
  {
  }

  /** Walls on every probed cell keep the player in place, whatever keys are held. */
  lemma WallsBlockMovement(l: Levels.Level, p: Player, keys: Keys, cosA: real, sinA: real, dt: real)
    requires ProbesInLevel(l, p, keys, cosA, sinA, dt)
    requires forall i :: 0 <= i < |l.data| ==> l.data[i] != 0
    ensures KeysHandler(l, p, keys, cosA, sinA, dt) == p
  {
  }

  /**
   The two axes are gated independently: a forward step's x depends only on
   the x-probe cell and its y only on the y-probe cell, so changing any other
   cell changes neither.
   */
  lemma AxesGatedIndependently(l: Levels.Level, p: Player, f: Frame, dt: real, i: int, v: int)
    requires InLevel(l, ForwardXProbe(p, f)) && InLevel(l, ForwardYProbe(p, f))
    requires 0 <= i < |l.data|
    ensures i != ForwardXProbe(p, f) ==> StepForward(Levels.Update(l, i, v), p, f, dt).x == StepForward(l, p, f, dt).x
    ensures i != ForwardYProbe(p, f) ==> StepForward(Levels.Update(l, i, v), p, f, dt).y == StepForward(l, p, f, dt).y
  {
  }
}
