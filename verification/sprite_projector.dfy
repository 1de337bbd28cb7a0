/**
 The integer parts of render_enemies: the apparent scale of a sprite, the
 depth test against the wall depth buffer, the texture-row stepping and the
 chroma-key test on a sampled texel. The camera-space depth b and the screen
 column sx come in as reals.
 */
module SpriteProjector {
  import opened CppArith

  /** The sprite pass draws on a 120-column screen; its scale never exceeds that width. */
  const ScreenColumns: int := 120
  const MaxScale: int := 120

  /** The scale numerator `32 * 80`: sprite texture size times render height. */
  const ScaleNumerator: int := 32 * 80

  /** The side of a sprite texture; texture rows start at the last one. */
  const SpriteSize: int := 32

  /**
   `int scale = 32 * 80 / b`, clamped to [0, 120]. The quotient is a double
   truncated toward zero, so a sprite behind the camera (b < 0) gets scale 0.
   */
  function SpriteScale(b: real): (scale: int)
    requires b != 0.0
    ensures 0 <= scale <= MaxScale
    ensures b < 0.0 ==> scale == 0
    ensures b > 0.0 && Trunc(ScaleNumerator as real / b) < MaxScale ==> scale == Trunc(ScaleNumerator as real / b)
    ensures b > 0.0 && Trunc(ScaleNumerator as real / b) >= MaxScale ==> scale == MaxScale
  {
    Min(MaxScale, Max(0, Trunc(ScaleNumerator as real / b)))
  }

  /** A nearer sprite is never drawn smaller than a farther one. */
  lemma NearerIsLarger(b1: real, b2: real)
    requires 0.0 < b1 <= b2
    ensures SpriteScale(b2) <= SpriteScale(b1)
  {
    DivideAntitone(ScaleNumerator as real, b1, b2);
    TruncMonotone(ScaleNumerator as real / b2, ScaleNumerator as real / b1);
  }

  /** Close enough, the scale saturates at 120; beyond 2560 units it drops to 0. */
  lemma ScaleExtremes(b: real)
    requires b != 0.0
    ensures 0.0 < b && b * (MaxScale + 1) as real <= ScaleNumerator as real ==> SpriteScale(b) == MaxScale
    ensures b > ScaleNumerator as real ==> SpriteScale(b) == 0
  {
    var q := ScaleNumerator as real / b;
    assert q * b == ScaleNumerator as real;
  }

  /**
   The depth test: the projected column lies strictly inside the screen and
   the sprite's depth is strictly below the wall distance stored for that
   column. The depth buffer holds ints, one per screen column.
   */
  predicate Visible(sx: real, b: real, depth: seq<int>)
    requires |depth| >= ScreenColumns
  {
    0.0 < sx < ScreenColumns as real && b < depth[Trunc(sx)] as real
  }

  /** The column the depth buffer is read at is always inside the buffer. */
  lemma DepthColumnInRange(sx: real)
    requires 0.0 < sx < ScreenColumns as real
    ensures 0 <= Trunc(sx) < ScreenColumns
  {
  }

  /**
   The scene pass stores a wall distance d truncated to an int. A sprite is
   then never drawn behind that wall, and one at or beyond the truncated
   distance is hidden, so a sprite up to one unit in front of the wall can be
   hidden as well.
   */
  lemma NeverDrawnBehindWall(sx: real, b: real, d: real, depth: seq<int>)
    requires |depth| >= ScreenColumns && 0.0 < sx < ScreenColumns as real
    requires 0.0 <= d && depth[Trunc(sx)] == Trunc(d)
    ensures Visible(sx, b, depth) ==> b < d
    ensures Trunc(d) as real <= b ==> !Visible(sx, b, depth)
  {
  }

  /** `ty = std::max(0.0, ty - ty_step)`: one texture row further up, never above row 0. */
  function NextSpriteRow(ty: real, step: real): (r: real)
    ensures r >= 0.0
    ensures r == ty - step || r == 0.0
    ensures r >= ty - step
    ensures step >= 0.0 && ty >= 0.0 ==> r <= ty
  {
    if ty - step > 0.0 then ty - step else 0.0
  }

  /** The texture row after n rows of a sprite column, starting from row 31. */
  function SpriteRowAfter(step: real, n: nat): real
  {
    if n == 0 then (SpriteSize - 1) as real else NextSpriteRow(SpriteRowAfter(step, n - 1), step)
  }

  /** With a non-negative step, every row sampled lies in [0, 31], so its truncation is a texture row. */
  lemma {:induction false} SpriteRowsInTexture(step: real, n: nat)
    requires step >= 0.0
    ensures 0.0 <= SpriteRowAfter(step, n) <= (SpriteSize - 1) as real
    ensures 0 <= Trunc(SpriteRowAfter(step, n)) < SpriteSize
  {
    if n > 0 {
      SpriteRowsInTexture(step, n - 1);
    }
  }

  /** An RGB colour read from a sprite texture, each channel in 0 .. 255. */
  datatype Color = Color(r: int, g: int, b: int)

  predicate IsByteColor(c: Color)
  {
    0 <= c.r < 256 && 0 <= c.g < 256 && 0 <= c.b < 256
  }

  /** The designated transparent colour: full magenta. */
  const Magenta: Color := Color(255, 0, 255)

  /** The chroma-key test as written: every channel must differ from magenta's. */
  predicate DrawnAsWritten(c: Color)
  {
    c.r != 255 && c.g != 0 && c.b != 255
  }

  /** The chroma-key test as intended: draw every colour except magenta itself. */
  predicate Drawn(c: Color)
  {
    c != Magenta
  }

  /**
   The corrected test draws everything the written one draws, and on top of
   it exactly the colours the written one hid although they are not magenta.
   */
  lemma DrawnRestoresLostColours(c: Color)
    ensures Drawn(c) <==> DrawnAsWritten(c) || (c != Magenta && (c.r == 255 || c.g == 0 || c.b == 255))
  {
  }

  /** What the written test draws, the intended one draws too; it hides a superset. */
  lemma AsWrittenHidesMore(c: Color)
    ensures DrawnAsWritten(c) ==> Drawn(c)
    ensures !DrawnAsWritten(c) <==> c.r == 255 || c.g == 0 || c.b == 255
  {
  }

  /**
   The written test hides colours that are not magenta: dark red (200, 0, 0)
   and pure white both vanish, as does every colour without green.
   */
  lemma AsWrittenHidesNonMagenta()
    ensures Drawn(Color(200, 0, 0)) && !DrawnAsWritten(Color(200, 0, 0))
    ensures Drawn(Color(255, 255, 255)) && !DrawnAsWritten(Color(255, 255, 255))
    ensures forall c :: IsByteColor(c) && c.g == 0 ==> !DrawnAsWritten(c)
  {
  }
}
