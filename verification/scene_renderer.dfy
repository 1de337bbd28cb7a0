/**
 The integer parts of render_scene: the wall-strip clip, the texture column
 and its mirroring, the texel lookup, and the writes of one strip into the
 RGB pixel buffer. The wall height, the fish-eye corrected distance and the
 render size come in as integers and reals; RENDER_WIDTH and RENDER_HEIGHT
 are parameters with the positivity their use assumes.
 */
module SceneRenderer {
  import opened CppArith
  import opened Utility
  import Textures

  type Byte = Textures.Byte
  type Texel = Textures.Texel

  /** The side of a wall texture in texels. */
  const TextureSize: int := Textures.Resolution

  /** The field of view in degrees that the rays of one frame sweep. */
  const FieldOfView: real := 60.0

  /**
   The strip after clipping: the texture rows skipped at the top
   (ty_offset), the rows drawn, and the screen row the strip starts on.
   */
  datatype Strip = Strip(tyOffset: int, height: int, offset: int)

  /**
   `int wall_height = (64 * RENDER_HEIGHT) / d`: the projected height of a
   wall at corrected distance d, truncated toward zero.
   */
  function WallHeight(renderHeight: int, d: real): (h: int)
    requires renderHeight > 0 && d > 0.0
    ensures h >= 0
    ensures h as real * d <= (TextureSize * renderHeight) as real
    ensures (h + 1) as real * d > (TextureSize * renderHeight) as real
  {
    var q := (TextureSize * renderHeight) as real / d;
    assert q * d == (TextureSize * renderHeight) as real;
    var n := Trunc(q);
    ScaleBetween(q, n, d);
    assert (TextureSize * renderHeight) as real < (n + 1) as real * d;
    n
  }

  /** Scaling by a positive d keeps q between n and n + 1. */
  lemma ScaleBetween(q: real, n: int, d: real)
    requires d > 0.0 && n as real <= q < (n + 1) as real
    ensures n as real * d <= q * d < (n + 1) as real * d
  {
  }

  /** A nearer wall is drawn at least as tall as a farther one. */
  lemma NearerWallsTaller(renderHeight: int, d1: real, d2: real)
    requires renderHeight > 0 && 0.0 < d1 <= d2
    ensures WallHeight(renderHeight, d2) <= WallHeight(renderHeight, d1)
  {
    var n := (TextureSize * renderHeight) as real;
    DivideAntitone(n, d1, d2);
    TruncMonotone(n / d2, n / d1);
  }

  /**
   Clips a wall of wallHeight rows to a render area of renderHeight rows and
   centres it: a taller wall skips half its excess at the top.
   */
  function ClipStrip(wallHeight: int, renderHeight: int): (s: Strip)
    requires renderHeight > 0
    ensures wallHeight > renderHeight ==> s.height == renderHeight && s.tyOffset == (wallHeight - renderHeight) / 2
    ensures wallHeight <= renderHeight ==> s.height == wallHeight && s.tyOffset == 0
    ensures s.height <= renderHeight
    ensures s.height > 0 ==> 0 <= s.offset && s.offset + s.height <= renderHeight
  {
    var tyOffset := if wallHeight > renderHeight then CDiv(wallHeight - renderHeight, 2) else 0;
    var height := if wallHeight > renderHeight then renderHeight else wallHeight;
    Strip(tyOffset, height, renderHeight / 2 - height / 2)
  }

  /**
   The strip is centred: the rows left above it and below it differ by at
   most one, and the drawn texture rows never run past the wall's own rows.
   */
  lemma ClipStripCentred(wallHeight: int, renderHeight: int)
    requires renderHeight > 0 && wallHeight >= 0
    ensures var s := ClipStrip(wallHeight, renderHeight);
      var above := s.offset;
      var below := renderHeight - s.offset - s.height;
      -1 <= above - below <= 1 && 0 <= above && 0 <= below
    ensures var s := ClipStrip(wallHeight, renderHeight);
      0 <= s.tyOffset && s.tyOffset + s.height <= wallHeight
  {
  }

  /**
   The texture row of screen row y of the strip: ty starts at
   ty_offset * ty_step and grows by ty_step = 64 / wallHeight per row
   (exact real arithmetic standing in for the accumulated doubles).
   */
  function TextureRow(s: Strip, wallHeight: int, y: int): (row: int)
    requires wallHeight > 0
  {
    Trunc((s.tyOffset + y) as real * (TextureSize as real / wallHeight as real))
  }

  /** Every row drawn samples a texture row inside the texture. */
  lemma TextureRowInRange(wallHeight: int, renderHeight: int, y: int)
    requires renderHeight > 0 && wallHeight > 0
    requires 0 <= y < ClipStrip(wallHeight, renderHeight).height
    ensures 0 <= TextureRow(ClipStrip(wallHeight, renderHeight), wallHeight, y) < TextureSize
  {
    var s := ClipStrip(wallHeight, renderHeight);
    ClipStripCentred(wallHeight, renderHeight);
    var n := s.tyOffset + y;
    assert 0 <= n < wallHeight;
    RowScaleBelow(n, wallHeight);
    assert TextureRow(s, wallHeight, y) == Trunc(n as real * (TextureSize as real / wallHeight as real));
  }

  /** Row n of a wall of wallHeight rows maps below the texture's last row. */
  lemma RowScaleBelow(n: int, wallHeight: int)
    requires 0 <= n < wallHeight
    ensures 0 <= Trunc(n as real * (TextureSize as real / wallHeight as real)) < TextureSize
  {
    var step := TextureSize as real / wallHeight as real;
    assert wallHeight as real * step == TextureSize as real;
    ScaleStrict(n as real, wallHeight as real, step);
  }

  lemma ScaleStrict(a: real, b: real, r: real)
    requires 0.0 <= a < b && 0.0 < r
    ensures 0.0 <= a * r < b * r
  {
  }

  /** The texture column before mirroring: C++ `(int)coord % 64`. */
  function BaseColumn(coord: real): (tx: int)
    ensures 0.0 <= coord ==> 0 <= tx < TextureSize
    ensures coord < 0.0 ==> -TextureSize < tx <= 0
    ensures (Trunc(coord) - tx) % TextureSize == 0
  {
    var n := Trunc(coord);
    var tx := CRem(n, TextureSize);
    assert n == TextureSize * CDiv(n, TextureSize) + tx;
    tx
  }

  function Mirror(tx: int): (m: int)
    ensures 0 <= tx < TextureSize ==> 0 <= m < TextureSize
    ensures m + tx == TextureSize - 1
  {
    TextureSize - 1 - tx
  }

  /** Mirroring is its own inverse, so it is a bijection on the columns. */
  lemma MirrorInvolution(tx: int)
    ensures Mirror(Mirror(tx)) == tx
    ensures forall u :: Mirror(u) == Mirror(tx) ==> u == tx
  {
  }

  /**
   Whether the column is mirrored, from the player heading (not the ray's):
   vertical hits when the heading points left, horizontal ones when it points down.
   */
  predicate Mirrored(vertical: bool, heading: real)
  {
    if vertical then 90.0 < heading < 270.0 else heading > 180.0
  }

  /**
   The texture column of a strip: the hit's y for a vertical hit, its x for a
   horizontal one, reduced to the texture width and mirrored as Mirrored says.
   */
  function TextureColumn(vertical: bool, hitX: real, hitY: real, heading: real): (tx: int)
    ensures var coord := if vertical then hitY else hitX;
      tx == BaseColumn(coord) || tx + BaseColumn(coord) == TextureSize - 1
    ensures 0.0 <= (if vertical then hitY else hitX) ==> 0 <= tx < TextureSize
  {
    var base := if vertical then BaseColumn(hitY) else BaseColumn(hitX);
    if Mirrored(vertical, heading) then Mirror(base) else base
  }

  /**
   The two mirroring rules: for a vertical hit exactly when the heading is
   strictly between 90 and 270, for a horizontal hit exactly above 180; and
   the column of the other coordinate never matters.
   */
  lemma MirrorRule(hitX: real, hitY: real, otherX: real, otherY: real, heading: real)
    requires 0.0 <= hitX && 0.0 <= hitY
    ensures TextureColumn(true, hitX, hitY, heading) == TextureColumn(true, otherX, hitY, heading)
    ensures TextureColumn(false, hitX, hitY, heading) == TextureColumn(false, hitX, otherY, heading)
    ensures TextureColumn(true, hitX, hitY, heading) == BaseColumn(hitY) <==> !(90.0 < heading < 270.0)
    ensures TextureColumn(false, hitX, hitY, heading) == BaseColumn(hitX) <==> heading <= 180.0
  {
    var bx := BaseColumn(hitX);
    var b := BaseColumn(hitY);
    if heading > 180.0 {
      assert TextureColumn(false, hitX, hitY, heading) == TextureSize - 1 - bx;
      assert TextureSize - 1 - bx != bx;
    }
    if 90.0 < heading < 270.0 {
      assert TextureColumn(true, hitX, hitY, heading) == TextureSize - 1 - b;
      assert TextureSize - 1 - b != b;
    }
  }

  /** The texel index of (row, column) in a 64x64 texture: `ty * 64 + tx`. */
  function TexelIndex(row: int, column: int): (i: int)
    requires 0 <= row < TextureSize && 0 <= column < TextureSize
    ensures 0 <= i < TextureSize * TextureSize
  {
    row * TextureSize + column
  }

  /** A texel is drawn unless all three of its bytes are zero. */
  predicate Drawn(t: Texel)
  {
    var c := Textures.Unpack(t);
    c.r > 0 || c.g > 0 || c.b > 0
  }

  /** Byte k (0 red, 1 green, 2 blue) of a texel, as the unpack writes it. */
  function ChannelByte(t: Texel, k: int): Byte
    requires 0 <= k < 3
  {
    var c := Textures.Unpack(t);
    if k == 0 then c.r else if k == 1 then c.g else c.b
  }

  /** Black texels are exactly the zero word among 24-bit texels: only they keep the cleared pixel. */
  lemma DrawnIffNonZero(t: Texel)
    requires t < 0x100_0000
    ensures !Drawn(t) <==> t == 0
  {
    Textures.BlackIsZero(t);
  }

  /** The texels a strip samples, one per drawn row, from a 64x64 texture. */
  function StripTexels(texture: seq<Texel>, wallHeight: int, renderHeight: int, column: int): (ts: seq<Texel>)
    requires renderHeight > 0 && wallHeight > 0
    requires |texture| == TextureSize * TextureSize && 0 <= column < TextureSize
    ensures |ts| == ClipStrip(wallHeight, renderHeight).height
    ensures forall y :: 0 <= y < |ts| ==> ts[y] == SampleRow(texture, wallHeight, renderHeight, column, y)
  {
    var s := ClipStrip(wallHeight, renderHeight);
    seq(s.height, y requires 0 <= y < s.height => SampleRow(texture, wallHeight, renderHeight, column, y))
  }

  /** The texel sampled on row y of a strip: texture row TextureRow, the given column. */
  function SampleRow(texture: seq<Texel>, wallHeight: int, renderHeight: int, column: int, y: int): (t: Texel)
    requires renderHeight > 0 && wallHeight > 0
    requires |texture| == TextureSize * TextureSize && 0 <= column < TextureSize
    requires 0 <= y < ClipStrip(wallHeight, renderHeight).height
    ensures var row := TextureRow(ClipStrip(wallHeight, renderHeight), wallHeight, y);
      0 <= row < TextureSize && t == texture[TexelIndex(row, column)]
  {
    TextureRowInRange(wallHeight, renderHeight, y);
    texture[TexelIndex(TextureRow(ClipStrip(wallHeight, renderHeight), wallHeight, y), column)]
  }

  /** The byte position of channel k of pixel (row, column) in a row-major RGB buffer. */
  function PixelByte(width: int, row: int, column: int, k: int): int
  {
    (row * width + column) * 3 + k
  }

  /** Division by a positive d has exactly one quotient and remainder. */
  lemma DivModUnique(n: int, d: int, q: int, r: int)
    requires d > 0 && 0 <= r < d && n == q * d + r
    ensures n / d == q && n % d == r
  {
    var q2 := n / d;
    var r2 := n % d;
    assert n == q2 * d + r2;
    assert (q2 - q) * d == q2 * d - q * d;
    assert (q2 - q) * d == r - r2;
    if q2 > q {
      MulAtLeast(q2 - q, d);
    } else if q2 < q {
      assert (q - q2) * d == r2 - r;
      MulAtLeast(q - q2, d);
    }
  }

  lemma MulAtLeast(a: int, d: int)
    requires a >= 1 && d > 0
    ensures a * d >= d
  {
    assert a * d == (a - 1) * d + d;
  }

  /** Pixel byte positions stay inside the buffer and decode back to (row, column, channel). */
  lemma PixelByteInverse(width: int, height: int, row: int, column: int, k: int)
    requires 0 <= row < height && 0 <= column < width && 0 <= k < 3
    ensures 0 <= PixelByte(width, row, column, k) < width * height * 3
    ensures PixelByte(width, row, column, k) / 3 == row * width + column
    ensures PixelByte(width, row, column, k) % 3 == k
    ensures (row * width + column) / width == row && (row * width + column) % width == column
  {
    var q := row * width + column;
    RowMajorBelow(width, height, row, column);
    assert PixelByte(width, row, column, k) == q * 3 + k;
    DivModUnique(q * 3 + k, 3, q, k);
    DivModUnique(q, width, row, column);
  }

  /** A row-major cell index stays below the cell count. */
  lemma RowMajorBelow(width: int, height: int, row: int, column: int)
    requires 0 <= row < height && 0 <= column < width
    ensures 0 <= row * width + column < width * height
  {
    MulAtLeast(height - row, width);
    assert (height - row) * width == height * width - row * width;
    assert 0 <= row * width;
  }

  /**
   What the buffer holds at byte p once the first n texels of a strip have
   been drawn at screen column ray, starting on screen row offset: the
   texel's channel for a drawn texel, the old byte everywhere else.
   */
  function Painted(buffer: seq<Byte>, width: int, ray: int, offset: int, ts: seq<Texel>, n: int, p: int): Byte
    requires 0 <= p < |buffer| && width > 0 && 0 <= n <= |ts|
  {
    var q := p / 3;
    var y := q / width - offset;
    if q % width == ray && 0 <= y < n && Drawn(ts[y]) then ChannelByte(ts[y], p % 3) else buffer[p]
  }

  /**
   The walls loop: for every row of the strip, a drawn texel's three bytes go
   to its pixel, and a black texel leaves the pixel as it was. No other byte
   of the buffer changes.
   */
  method DrawStrip(buffer: seq<Byte>, width: int, height: int, ray: int, offset: int, ts: seq<Texel>)
    returns (out: seq<Byte>)
    requires width > 0 && |buffer| == width * height * 3
    requires 0 <= ray < width && 0 <= offset && offset + |ts| <= height
    ensures |out| == |buffer|
    ensures forall p :: 0 <= p < |buffer| ==> out[p] == Painted(buffer, width, ray, offset, ts, |ts|, p)
  {
    out := buffer;
    var y := 0;
    while y < |ts|
      invariant 0 <= y <= |ts|
      invariant |out| == |buffer|
      invariant forall p :: 0 <= p < |buffer| ==> out[p] == Painted(buffer, width, ray, offset, ts, y, p)
    {
      var t := ts[y];
      var row := y + offset;
      ghost var before := out;
      PixelByteInverse(width, height, row, ray, 2);
      var base := PixelByte(width, row, ray, 0);
      if Drawn(t) {
        var c := Textures.Unpack(t);
        out := out[base := c.r][base + 1 := c.g][base + 2 := c.b];
      }
      forall p | 0 <= p < |buffer|
        ensures out[p] == Painted(buffer, width, ray, offset, ts, y + 1, p)
      {
        PaintStep(buffer, width, height, ray, offset, ts, y, before, out, p);
      }
      y := y + 1;
    }
  }

  /** One row of the walls loop, for a single buffer byte. */
  lemma PaintStep(buffer: seq<Byte>, width: int, height: int, ray: int, offset: int, ts: seq<Texel>, y: int,
                  before: seq<Byte>, after: seq<Byte>, p: int)
    requires width > 0 && |buffer| == width * height * 3
    requires 0 <= ray < width && 0 <= offset && offset + |ts| <= height
    requires 0 <= y < |ts| && 0 <= p < |buffer| && |before| == |buffer| && |after| == |buffer|
    requires before[p] == Painted(buffer, width, ray, offset, ts, y, p)
    requires var base := PixelByte(width, y + offset, ray, 0);
      0 <= base && base + 3 <= |buffer| &&
      (Drawn(ts[y]) ==> after == before[base := ChannelByte(ts[y], 0)][base + 1 := ChannelByte(ts[y], 1)][base + 2 := ChannelByte(ts[y], 2)]) &&
      (!Drawn(ts[y]) ==> after == before)
    ensures after[p] == Painted(buffer, width, ray, offset, ts, y + 1, p)
  {
    var row := y + offset;
    var base := PixelByte(width, row, ray, 0);
    var q := p / 3;
    assert q * 3 + p % 3 == p;
    assert q == (q / width) * width + q % width;
    if base <= p < base + 3 {
      DivModUnique(p, 3, row * width + ray, p - base);
      DivModUnique(row * width + ray, width, row, ray);
    } else {
      assert q != row * width + ray;
    }
  }

  /** The clamp as whole turns: how many times 360 it adds to d. */
  function ClampTurns(d: real): (n: int)
    ensures ClampToUnitCircle(d) == d + 360.0 * n as real
  {
    if ClampToUnitCircle(d) == d then 0 else if ClampToUnitCircle(d) == d - 360.0 then -1 else 1
  }

  /** The turn between neighbouring rays: the field of view spread over renderWidth columns. */
  function RayStep(renderWidth: int): (step: real)
    requires renderWidth > 0
    ensures 0.0 < step <= FieldOfView
  {
    FieldOfView / renderWidth as real
  }

  /**
   The sweep covers the field of view: up to whole turns, the last of
   renderWidth rays points one step short of 30 degrees right of the heading,
   and one more step would land exactly there.
   */
  lemma SweepSpansFieldOfView(heading: real, renderWidth: int)
    requires renderWidth > 0
    ensures var step := RayStep(renderWidth);
      && RayAngle(heading, step, renderWidth - 1)
           == heading - FieldOfView / 2.0 + step + 360.0 * RayTurns(heading, step, renderWidth - 1) as real
      && RayAngle(heading, step, renderWidth)
           == heading - FieldOfView / 2.0 + 360.0 * RayTurns(heading, step, renderWidth) as real
  {
    var step := RayStep(renderWidth);
    assert renderWidth as real * step == FieldOfView;
    RaySweep(heading, step, renderWidth - 1);
    RaySweep(heading, step, renderWidth);
    assert (renderWidth - 1) as real * step == renderWidth as real * step - step;
  }

  /**
   The angle of ray k of a frame: the first ray is 30 degrees left of the
   heading and each next one turns one step back, clamped after every step.
   Any step up to a full turn keeps every ray on the circle.
   */
  function RayAngle(heading: real, step: real, k: nat): (a: real)
    requires 0.0 <= step <= 360.0
    ensures 0.0 <= heading < 360.0 ==> 0.0 <= a < 360.0
  {
    if k == 0 then ClampToUnitCircle(heading + FieldOfView / 2.0)
    else ClampToUnitCircle(RayAngle(heading, step, k - 1) - step)
  }

  /** The number of whole turns the clamps of rays 0 .. k have added. */
  function RayTurns(heading: real, step: real, k: nat): int
    requires 0.0 <= step <= 360.0
  {
    if k == 0 then ClampTurns(heading + FieldOfView / 2.0)
    else RayTurns(heading, step, k - 1) + ClampTurns(RayAngle(heading, step, k - 1) - step)
  }

  /** Ray k is ray k - 1 turned one step back, plus the turns of its clamp. */
  lemma RayUnfold(heading: real, step: real, k: nat)
    requires 0.0 <= step <= 360.0 && k > 0
    ensures var d := RayAngle(heading, step, k - 1) - step;
      RayAngle(heading, step, k) == d + 360.0 * ClampTurns(d) as real &&
      RayTurns(heading, step, k) == RayTurns(heading, step, k - 1) + ClampTurns(d)
  {
  }

  /** The total turn of k steps, accumulated one step at a time as the ray loop does. */
  function SweepOffset(step: real, k: nat): real
  {
    if k == 0 then 0.0 else SweepOffset(step, k - 1) + step
  }

  /** k accumulated steps are k times the step. */
  lemma {:induction false} SweepOffsetIsProduct(step: real, k: nat)
    ensures SweepOffset(step, k) == k as real * step
  {
    if k > 0 {
      SweepOffsetIsProduct(step, k - 1);
      assert k as real * step == (k - 1) as real * step + step;
    }
  }

  /**
   Up to whole turns, ray k points exactly k steps right of the first ray:
   the clamps never drift the sweep.
   */
  lemma {:induction false} RaySweep(heading: real, step: real, k: nat)
    requires 0.0 <= step <= 360.0
    ensures RayAngle(heading, step, k)
      == heading + FieldOfView / 2.0 - k as real * step + 360.0 * RayTurns(heading, step, k) as real
  {
    RaySweepOffset(heading, step, k);
    SweepOffsetIsProduct(step, k);
  }

  lemma {:induction false} RaySweepOffset(heading: real, step: real, k: nat)
    requires 0.0 <= step <= 360.0
    ensures RayAngle(heading, step, k)
      == heading + FieldOfView / 2.0 - SweepOffset(step, k) + 360.0 * RayTurns(heading, step, k) as real
  {
    if k > 0 {
      RaySweepOffset(heading, step, k - 1);
      RayUnfold(heading, step, k);
    }
  }
}
