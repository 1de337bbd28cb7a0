/**
 The discrete skeleton of calculate_vertical_hits and calculate_horizontal_hits:
 where a march starts, which grid cell each step probes, when a probe is a
 hit, and the bounded first-hit search. Trigonometric values (cos, sin,
 tan and its reciprocal) are given reals; floating-point rounding is not
 modelled.
 */
module RayTracer {
  import opened Results
  import opened CppArith
  import Levels
  import Game

  /** The cell size in world units; `>> 6` and `<< 6` divide and multiply by it. */
  const CellSize: int := 64

  /** The linear index the probe computes for integer point (ix, iy): `(iy >> 6) * width + (ix >> 6)`. */
  function CellIndex(width: int, ix: int, iy: int): int
  {
    Shr6(iy) * width + Shr6(ix)
  }

  /**
   The hit test: only the linear index is bounds-checked, and it must be
   strictly positive, so cell 0 never hits.
   */
  predicate IsHit(l: Levels.Level, ix: int, iy: int)
    requires Levels.Valid(l)
  {
    var pos := CellIndex(l.width, ix, iy);
    0 < pos < l.width * l.height && l.data[pos] > 0
  }

  /** The material of a hit cell: its value minus one. */
  function HitMaterial(l: Levels.Level, ix: int, iy: int): (m: int)
    requires Levels.Valid(l) && IsHit(l, ix, iy)
    ensures m >= 0
    ensures m + 1 == l.data[CellIndex(l.width, ix, iy)]
  {
    l.data[CellIndex(l.width, ix, iy)] - 1
  }

  /** The probe at a world point: both coordinates truncated toward zero first. */
  predicate ProbeHits(l: Levels.Level, x: real, y: real)
    requires Levels.Valid(l)
  {
    IsHit(l, Trunc(x), Trunc(y))
  }

  /** Cell 0 is never a hit, even when it holds a wall (as the border grid's corner does). */
  lemma CornerCellNeverHits(l: Levels.Level, ix: int, iy: int)
    requires Levels.Valid(l)
    requires 0 <= ix < CellSize && 0 <= iy < CellSize
    ensures CellIndex(l.width, ix, iy) == 0
    ensures !IsHit(l, ix, iy)
  {
  }

  /**
   A column past the right edge is not rejected: it aliases into the next
   row, one cell size further down.
   */
  lemma ColumnOverflowAliases(width: int, ix: int, iy: int)
    ensures CellIndex(width, ix + CellSize * width, iy) == CellIndex(width, ix, iy + CellSize)
  {
    assert Shr6(ix + CellSize * width) == Shr6(ix) + width by {
      assert ix + CellSize * width == (Shr6(ix) + width) * 64 + ix % 64;
    }
    assert Shr6(iy + CellSize) == Shr6(iy) + 1;
  }

  /**
   For a point whose grid cell (ix >> 6, iy >> 6) lies inside the level, the
   flat probe agrees with the 2-D grid: it hits exactly when the cell holds a
   wall and is not the corner cell (0, 0).
   */
  lemma HitIffWall(l: Levels.Level, ix: int, iy: int)
    requires Levels.Valid(l)
    requires 0 <= Shr6(ix) < l.width && 0 <= Shr6(iy) < l.height
    ensures IsHit(l, ix, iy) <==>
      (Shr6(ix), Shr6(iy)) != (0, 0) && Levels.Cell(l, Shr6(ix), Shr6(iy)) > 0
  {
    var i, j := Shr6(ix), Shr6(iy);
    Levels.RowMajorBound(l.width, l.height, i, j);
    if j > 0 {
      assert j * l.width == (j - 1) * l.width + l.width;
      assert (j - 1) * l.width >= 0;
    }
  }

  /**
   On a fresh level the probe hits exactly the border ring, minus the corner
   cell (0, 0): every march inside the level meets a wall at the border.
   */
  lemma NewLevelHits(w: int, h: int, ix: int, iy: int)
    requires 0 <= Shr6(ix) < w && 0 <= Shr6(iy) < h
    ensures Levels.Valid(Levels.NewLevel(w, h))
    ensures IsHit(Levels.NewLevel(w, h), ix, iy) <==>
      Levels.OnBorder(w, h, Shr6(ix), Shr6(iy)) && (Shr6(ix), Shr6(iy)) != (0, 0)
  {
    Levels.NewLevelShape(w, h);
    HitIffWall(Levels.NewLevel(w, h), ix, iy);
  }

  /** A distance: a finite value or the INFINITY sentinel of a march without a hit. */
  datatype Dist = Infinite | Finite(value: real)

  /** `a < b` on doubles where either side may be INFINITY. */
  predicate Nearer(a: Dist, b: Dist)
  {
    match a
    case Infinite => false
    case Finite(x) => b.Infinite? || x < b.value
  }

  /** Nearer is a strict order: irreflexive and transitive, so never both ways. */
  lemma NearerIsStrict(a: Dist, b: Dist, c: Dist)
    ensures !Nearer(a, a)
    ensures Nearer(a, b) ==> !Nearer(b, a)
    ensures Nearer(a, b) && Nearer(b, c) ==> Nearer(a, c)
  {
  }

  /** A ray: the player position and the trigonometry of its angle. `cot` is `1.0 / tan`. */
  datatype Ray = Ray(px: real, py: real, cos: real, sin: real, tan: real, cot: real)

  /** Where a march starts and how far each step moves. */
  datatype Stepping = Stepping(x0: real, y0: real, ox: real, oy: real)

  /**
   The vertical march's set-up: start on the next vertical grid line in the
   direction cos points and step one cell along x; none when |cos| is within eps.
   */
  function VerticalStepping(r: Ray, eps: real): (st: Option<Stepping>)
    ensures st.Some? <==> (r.cos > eps || r.cos < -eps)
    ensures st.Some? && r.cos > eps ==> st.value.ox == CellSize as real && st.value.x0 == (Snap64(Trunc(r.px)) + CellSize) as real
    ensures st.Some? && r.cos <= eps ==> st.value.ox == -CellSize as real && st.value.x0 == Snap64(Trunc(r.px)) as real - eps
  {
    if r.cos > eps then
      var vx := Snap64(Trunc(r.px)) as real + 64.0;
      Some(Stepping(vx, (r.px - vx) * r.tan + r.py, 64.0, -64.0 * r.tan))
    else if r.cos < -eps then
      var vx := Snap64(Trunc(r.px)) as real - eps;
      Some(Stepping(vx, (r.px - vx) * r.tan + r.py, -64.0, 64.0 * r.tan))
    else
      None
  }

  /**
   The horizontal march's set-up: start on the next horizontal grid line in
   the direction sin points and step one cell along y; none when |sin| is within eps.
   */
  function HorizontalStepping(r: Ray, eps: real): (st: Option<Stepping>)
    ensures st.Some? <==> (r.sin > eps || r.sin < -eps)
    ensures st.Some? && r.sin > eps ==> st.value.oy == -CellSize as real && st.value.y0 == Snap64(Trunc(r.py)) as real - eps
    ensures st.Some? && r.sin <= eps ==> st.value.oy == CellSize as real && st.value.y0 == (Snap64(Trunc(r.py)) + CellSize) as real
  {
    if r.sin > eps then
      var hy := Snap64(Trunc(r.py)) as real - eps;
      Some(Stepping((r.py - hy) * r.cot + r.px, hy, 64.0 * r.cot, -64.0))
    else if r.sin < -eps then
      var hy := Snap64(Trunc(r.py)) as real + 64.0;
      Some(Stepping((r.py - hy) * r.cot + r.px, hy, -64.0 * r.cot, 64.0))
    else
      None
  }

  /** The point probed at step k of a march. */
  function StepX(st: Stepping, k: int): real { st.x0 + k as real * st.ox }
  function StepY(st: Stepping, k: int): real { st.y0 + k as real * st.oy }

  predicate HitAtStep(l: Levels.Level, st: Stepping, k: int)
    requires Levels.Valid(l)
  {
    ProbeHits(l, StepX(st, k), StepY(st, k))
  }

  /**
   The bounded search: probe steps 0, 1, ... below maxDepth and stop at the
   first hit. Returns whether a hit was found, the step it stopped at (maxDepth
   when none), and the point reached, as the source's `vx += ox` leaves it.
   */
  method March(l: Levels.Level, st: Stepping, maxDepth: int) returns (hit: bool, depth: int, x: real, y: real)
    requires Levels.Valid(l)
    ensures 0 <= depth
    ensures hit ==> depth < maxDepth && HitAtStep(l, st, depth)
    ensures !hit ==> depth == Max(maxDepth, 0)
    ensures forall k :: 0 <= k < depth ==> !HitAtStep(l, st, k)
    ensures x == StepX(st, depth) && y == StepY(st, depth)
  {
    x, y := st.x0, st.y0;
    depth := 0;
    hit := false;
    while depth < maxDepth
      invariant 0 <= depth <= Max(maxDepth, 0)
      invariant x == StepX(st, depth) && y == StepY(st, depth)
      invariant forall k :: 0 <= k < depth ==> !HitAtStep(l, st, k)
    {
      if ProbeHits(l, x, y) {
        hit := true;
        return;
      }
      x := x + st.ox;
      y := y + st.oy;
      depth := depth + 1;
    }
  }

  /**
   What a march reports: the point it ended on, the distance (INFINITY
   without a hit) and the material, which keeps the caller's previous value
   when nothing is hit.
   */
  datatype Trace = Trace(x: real, y: real, dist: Dist, material: int)

  /** The perpendicular distance of a hit point: the displacement projected on (cos, -sin). */
  function Perpendicular(r: Ray, x: real, y: real): real
  {
    r.cos * (x - r.px) - r.sin * (y - r.py)
  }

  /**
   What a march reports for a given set-up: a finite distance comes from the
   first step that hits, with the hit cell's material and the point's
   projected distance; INFINITY means none of the MAX_DEPTH probes hit, and
   the material keeps its previous value.
   */
  predicate Reported(l: Levels.Level, r: Ray, st: Stepping, previous: int, t: Trace, probes: int)
    requires Levels.Valid(l)
  {
    && (t.dist.Finite? ==>
          && probes >= 1
          && HitAtStep(l, st, probes - 1)
          && (forall k :: 0 <= k < probes - 1 ==> !HitAtStep(l, st, k))
          && t.x == StepX(st, probes - 1) && t.y == StepY(st, probes - 1)
          && t.material == HitMaterial(l, Trunc(t.x), Trunc(t.y))
          && t.dist.value == Perpendicular(r, t.x, t.y))
    && (t.dist.Infinite? ==>
          && probes == Game.MaxDepth
          && (forall k :: 0 <= k < Game.MaxDepth ==> !HitAtStep(l, st, k))
          && t.material == previous)
  }

  /**
   One march of either family with MAX_DEPTH probes at most. `probes` counts
   the cells inspected.
   */
  method Cast(l: Levels.Level, r: Ray, stepping: Option<Stepping>, previous: int) returns (t: Trace, probes: int)
    requires Levels.Valid(l)
    ensures 0 <= probes <= Game.MaxDepth
    ensures stepping.None? ==> t == Trace(r.px, r.py, Infinite, previous) && probes == 0
    ensures stepping.Some? ==> Reported(l, r, stepping.value, previous, t, probes)
  {
    if stepping.None? {
      return Trace(r.px, r.py, Infinite, previous), 0;
    }
    var hit, depth, x, y := March(l, stepping.value, Game.MaxDepth);
    if hit {
      t := Trace(x, y, Finite(Perpendicular(r, x, y)), HitMaterial(l, Trunc(x), Trunc(y)));
      probes := depth + 1;
    } else {
      t := Trace(x, y, Infinite, previous);
      probes := depth;
    }
  }

  /** calculate_vertical_hits: the march over vertical grid-line crossings. */
  method VerticalHits(l: Levels.Level, r: Ray, eps: real, previous: int) returns (t: Trace, probes: int)
    requires Levels.Valid(l)
    ensures 0 <= probes <= Game.MaxDepth
    ensures -eps <= r.cos <= eps ==> t == Trace(r.px, r.py, Infinite, previous) && probes == 0
    ensures (r.cos > eps || r.cos < -eps) ==> Reported(l, r, VerticalStepping(r, eps).value, previous, t, probes)
    ensures t.dist.Finite? ==> t.material >= 0 && ProbeHits(l, t.x, t.y)
    ensures t.dist.Infinite? ==> t.material == previous
  {
    t, probes := Cast(l, r, VerticalStepping(r, eps), previous);
  }

  /** calculate_horizontal_hits: the march over horizontal grid-line crossings. */
  method HorizontalHits(l: Levels.Level, r: Ray, eps: real, previous: int) returns (t: Trace, probes: int)
    requires Levels.Valid(l)
    ensures 0 <= probes <= Game.MaxDepth
    ensures -eps <= r.sin <= eps ==> t == Trace(r.px, r.py, Infinite, previous) && probes == 0
    ensures (r.sin > eps || r.sin < -eps) ==> Reported(l, r, HorizontalStepping(r, eps).value, previous, t, probes)
    ensures t.dist.Finite? ==> t.material >= 0 && ProbeHits(l, t.x, t.y)
    ensures t.dist.Infinite? ==> t.material == previous
  {
    t, probes := Cast(l, r, HorizontalStepping(r, eps), previous);
  }

  /**
   The nearer of the two marches: the vertical hit only when strictly nearer,
   so ties and two misses keep the horizontal one.
   */
  datatype Choice = Choice(vertical: bool, shade: real, trace: Trace)

  function Select(v: Trace, h: Trace): (c: Choice)
    ensures c.vertical <==> Nearer(v.dist, h.dist)
    ensures c.shade == 1.0 <==> c.vertical
  {
    if Nearer(v.dist, h.dist) then Choice(true, 1.0, v) else Choice(false, 0.5, h)
  }

  /** The chosen march is never farther than the other one, and it is the one its flag names. */
  lemma SelectIsNearest(v: Trace, h: Trace)
    ensures Select(v, h).trace == (if Select(v, h).vertical then v else h)
    ensures !Nearer(v.dist, Select(v, h).trace.dist) && !Nearer(h.dist, Select(v, h).trace.dist)
    ensures v.dist == h.dist ==> !Select(v, h).vertical
  {
  }
}
