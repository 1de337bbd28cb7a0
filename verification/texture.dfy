/**
 The 64x64 texture: a line-oriented loader for a fixed-layout subset of the
 Netpbm binary PPM ("P6") format that packs each byte triple into one 24-bit
 texel, and the colour unpacking the renderer applies to such texels.
 */
module Textures {
  import opened Results

  type Byte = bv8
  type Texel = bv32
  type Line = seq<Byte>

  /** Texels of a fully loaded texture: 64 by 64. */
  const Resolution: int := 64

  /** "P6" */
  const Magic: Line := [0x50, 0x36]
  /** "64 64" */
  const Dims64: Line := [0x36, 0x34, 0x20, 0x36, 0x34]
  /** "255" */
  const MaxValue: Line := [0x32, 0x35, 0x35]

  /** The line expected at header position k (0, 1 or 2), for a given dimension line. */
  function HeaderLine(dims: Line, k: nat): Line
    requires k < 3
  {
    if k == 0 then Magic else if k == 1 then dims else MaxValue
  }

  /** The fatal report: the file name and the offending line. */
  datatype LoadError = LoadError(name: string, line: Line)

  /** One unpacked colour. */
  datatype Rgb = Rgb(r: Byte, g: Byte, b: Byte)

  /** `(r << 16) | (g << 8) | b`, as the blue state of the loader assembles it. */
  function Pack(r: Byte, g: Byte, b: Byte): (t: Texel)
    ensures t < 0x100_0000
  {
    (r as bv32 << 16) | (g as bv32 << 8) | b as bv32
  }

  /** The renderer's unpacking: red is `color >> 16` cut to a byte, green and blue are masked. */
  function Unpack(t: Texel): Rgb
  {
    Rgb(((t >> 16) & 0xFF) as bv8, ((t >> 8) & 0xFF) as bv8, (t & 0xFF) as bv8)
  }

  /** Unpacking a packed texel recovers its three bytes. */
  lemma UnpackPack(r: Byte, g: Byte, b: Byte)
    ensures Unpack(Pack(r, g, b)) == Rgb(r, g, b)
  {
  }

  /** Packing the unpacked bytes of any 24-bit texel gives the texel back. */
  lemma PackUnpack(t: Texel)
    requires t < 0x100_0000
    ensures Pack(Unpack(t).r, Unpack(t).g, Unpack(t).b) == t
  {
  }

  /** The renderer skips a texel whose three channels are all zero; for 24-bit texels that is exactly 0. */
  predicate IsBlack(t: Texel)
  {
    Unpack(t) == Rgb(0, 0, 0)
  }

  lemma BlackIsZero(t: Texel)
    requires t < 0x100_0000
    ensures IsBlack(t) <==> t == 0
  {
    if IsBlack(t) {
      PackUnpack(t);
    }
  }

  /** The byte state of the body decoder: which channel the next byte fills. */
  datatype Channel = Red | Green | Blue

  /**
   The per-line decoding loop: `state` is the channel of the next byte and
   `color` the texel assembled so far; a texel is appended after its blue
   byte, and whatever is pending when the line ends is dropped.
   */
  function DecodeFrom(s: Line, state: Channel, color: Texel): seq<Texel>
    decreases |s|
  {
    if |s| == 0 then []
    else
      match state
      case Red => DecodeFrom(s[1..], Green, color | (s[0] as bv32 << 16))
      case Green => DecodeFrom(s[1..], Blue, color | (s[0] as bv32 << 8))
      case Blue => [color | s[0] as bv32] + DecodeFrom(s[1..], Red, 0)
  }

  /** A body line starts in the red state with an empty accumulator. */
  function DecodeLine(s: Line): seq<Texel>
  {
    DecodeFrom(s, Red, 0)
  }

  /** Reference reading of a body line: one texel per complete byte triple, in order. */
  function Texels(s: Line): seq<Texel>
    decreases |s|
  {
    if |s| < 3 then [] else [Pack(s[0], s[1], s[2])] + Texels(s[3..])
  }

  /** The accumulator after red, green and blue is the packed texel. */
  lemma AssembleIsPack(r: Byte, g: Byte, b: Byte)
    ensures ((0 as bv32 | (r as bv32 << 16)) | (g as bv32 << 8)) | b as bv32 == Pack(r, g, b)
  {
  }

  /** One step of the decoder on a non-empty line. */
  lemma DecodeStep(s: Line, state: Channel, color: Texel)
    requires |s| > 0
    ensures state == Red ==> DecodeFrom(s, state, color) == DecodeFrom(s[1..], Green, color | (s[0] as bv32 << 16))
    ensures state == Green ==> DecodeFrom(s, state, color) == DecodeFrom(s[1..], Blue, color | (s[0] as bv32 << 8))
    ensures state == Blue ==> DecodeFrom(s, state, color) == [color | s[0] as bv32] + DecodeFrom(s[1..], Red, 0)
  {
  }

  /** The accumulator after the red byte, and after the red and green bytes. */
  function AfterRed(r: Byte): Texel { 0 as bv32 | (r as bv32 << 16) }
  function AfterGreen(r: Byte, g: Byte): Texel { AfterRed(r) | (g as bv32 << 8) }

  lemma DecodeRed(r: Byte, g: Byte, b: Byte, rest: Line)
    ensures DecodeFrom([r, g, b] + rest, Red, 0) == DecodeFrom([g, b] + rest, Green, AfterRed(r))
  {
    var s := [r, g, b] + rest;
    DecodeStep(s, Red, 0);
    assert s[1..] == [g, b] + rest;
  }

  lemma DecodeGreen(r: Byte, g: Byte, b: Byte, rest: Line)
    ensures DecodeFrom([g, b] + rest, Green, AfterRed(r)) == DecodeFrom([b] + rest, Blue, AfterGreen(r, g))
  {
    var s := [g, b] + rest;
    DecodeStep(s, Green, AfterRed(r));
    assert s[1..] == [b] + rest;
  }

  lemma DecodeBlue(r: Byte, g: Byte, b: Byte, rest: Line)
    ensures DecodeFrom([b] + rest, Blue, AfterGreen(r, g)) == [Pack(r, g, b)] + DecodeFrom(rest, Red, 0)
  {
    var s := [b] + rest;
    DecodeStep(s, Blue, AfterGreen(r, g));
    assert s[1..] == rest;
    AssembleIsPack(r, g, b);
  }

  /** Three bytes in the red state emit one texel and return to the red state. */
  lemma DecodeTriple(r: Byte, g: Byte, b: Byte, rest: Line)
    ensures DecodeFrom([r, g, b] + rest, Red, 0) == [Pack(r, g, b)] + DecodeFrom(rest, Red, 0)
  {
    DecodeRed(r, g, b, rest);
    DecodeGreen(r, g, b, rest);
    DecodeBlue(r, g, b, rest);
  }

  /** The state machine decodes exactly the complete triples of its line. */
  lemma {:induction false} DecodeLineIsTexels(s: Line)
    ensures DecodeLine(s) == Texels(s)
  {
    if |s| >= 3 {
      assert s == [s[0], s[1], s[2]] + s[3..];
      DecodeTriple(s[0], s[1], s[2], s[3..]);
      DecodeLineIsTexels(s[3..]);
    } else if |s| == 2 {
      var c0 := 0 as bv32 | (s[0] as bv32 << 16);
      var c1 := c0 | (s[1] as bv32 << 8);
      assert s[1..][1..] == [];
      assert DecodeFrom(s[1..][1..], Blue, c1) == [];
      assert DecodeFrom(s[1..], Green, c0) == [];
    } else if |s| == 1 {
      var c0 := 0 as bv32 | (s[0] as bv32 << 16);
      assert s[1..] == [];
      assert DecodeFrom(s[1..], Green, c0) == [];
    }
  }

  /** A line yields floor(len / 3) texels: one or two trailing bytes are dropped. */
  lemma {:induction false} TexelsLength(s: Line)
    ensures |Texels(s)| == |s| / 3
  {
    if |s| >= 3 {
      TexelsLength(s[3..]);
    }
  }

  /** Texel k is built from bytes 3k, 3k+1 and 3k+2 of its line. */
  lemma {:induction false} TexelsIndex(s: Line, k: int)
    requires 0 <= k < |s| / 3
    ensures |Texels(s)| == |s| / 3
    ensures Texels(s)[k] == Pack(s[3 * k], s[3 * k + 1], s[3 * k + 2])
  {
    TexelsLength(s);
    if k > 0 {
      TexelsIndex(s[3..], k - 1);
    }
  }

  /** Whole triples decode independently of what follows them. */
  lemma {:induction false} TexelsAppend(a: Line, b: Line)
    requires |a| % 3 == 0
    ensures Texels(a + b) == Texels(a) + Texels(b)
  {
    if |a| >= 3 {
      assert (a + b)[3..] == a[3..] + b;
      TexelsAppend(a[3..], b);
    } else {
      assert a + b == b;
    }
  }

  /** Every texel fits in 24 bits. */
  predicate AllFit(ts: seq<Texel>)
  {
    forall k :: 0 <= k < |ts| ==> ts[k] < 0x100_0000
  }

  lemma {:induction false} TexelsFit(s: Line)
    ensures AllFit(Texels(s))
  {
    if |s| >= 3 {
      TexelsFit(s[3..]);
    }
  }

  /** The body lines' texels concatenated in file order. */
  function Body(lines: seq<Line>): seq<Texel>
    decreases |lines|
  {
    if |lines| == 0 then [] else Texels(lines[0]) + Body(lines[1..])
  }

  /** The loader's state: the index of the next line and the data so far, or the fatal error. */
  datatype Loader = Reading(line: nat, data: seq<Texel>) | Failed(error: LoadError)

  /**
   One iteration of Texture::load's line loop: header lines 0..2 must match
   exactly, later lines are decoded and appended. A failure ends the process,
   so a failed loader ignores the rest.
   */
  function Feed(name: string, st: Loader, s: Line): Loader
  {
    match st
    case Failed(_) => st
    case Reading(k, data) =>
      if k < 3 then
        if s != HeaderLine(Dims64, k) then Failed(LoadError(name, s)) else Reading(k + 1, data)
      else
        Reading(k + 1, data + DecodeLine(s))
  }

  function Run(name: string, st: Loader, lines: seq<Line>): Loader
    decreases |lines|
  {
    if |lines| == 0 then st else Run(name, Feed(name, st, lines[0]), lines[1..])
  }

  /** Texture::load over the file's lines; no check on the total texel count. */
  function Load(name: string, lines: seq<Line>): Result<seq<Texel>, LoadError>
  {
    match Run(name, Reading(0, []), lines)
    case Reading(_, data) => Ok(data)
    case Failed(e) => Err(e)
  }

  /** Every header line present matches the expected one. */
  predicate HeaderOk(dims: Line, lines: seq<Line>)
  {
    forall k :: 0 <= k < 3 && k < |lines| ==> lines[k] == HeaderLine(dims, k)
  }

  /** Line k is the first header line that does not match. */
  predicate FirstMismatch(dims: Line, lines: seq<Line>, k: int)
  {
    && 0 <= k < 3 && k < |lines|
    && lines[k] != HeaderLine(dims, k)
    && forall j :: 0 <= j < k ==> lines[j] == HeaderLine(dims, j)
  }

  /** The lines after the header (none when there are at most three lines). */
  function BodyLines(lines: seq<Line>): seq<Line>
  {
    if |lines| <= 3 then [] else lines[3..]
  }

  lemma {:induction false} RunFailed(name: string, e: LoadError, lines: seq<Line>)
    ensures Run(name, Failed(e), lines) == Failed(e)
  {
    if |lines| > 0 {
      RunFailed(name, e, lines[1..]);
    }
  }

  lemma {:induction false} RunBody(name: string, k: nat, data: seq<Texel>, lines: seq<Line>)
    requires k >= 3
    ensures Run(name, Reading(k, data), lines) == Reading(k + |lines|, data + Body(lines))
    decreases |lines|
  {
    if |lines| > 0 {
      DecodeLineIsTexels(lines[0]);
      RunBody(name, k + 1, data + Texels(lines[0]), lines[1..]);
    }
  }

  /** Running the header positions from k on, when lines[0] is header line k. */
  lemma {:induction false} RunHeader(name: string, k: nat, lines: seq<Line>)
    requires k <= 3
    ensures HeaderOkFrom(k, lines) ==>
      Run(name, Reading(k, []), lines) == Reading(k + |lines|, Body(BodyLinesFrom(k, lines)))
    ensures forall m :: FirstMismatchFrom(k, lines, m) ==>
      Run(name, Reading(k, []), lines) == Failed(LoadError(name, lines[m]))
    decreases |lines|
  {
    if |lines| == 0 {
    } else if k == 3 {
      RunBody(name, 3, [], lines);
      assert BodyLinesFrom(3, lines) == lines;
    } else {
      if lines[0] == HeaderLine(Dims64, k) {
        RunHeader(name, k + 1, lines[1..]);
        if HeaderOkFrom(k, lines) {
          assert HeaderOkFrom(k + 1, lines[1..]) by {
            forall m | 0 <= m < 3 - (k + 1) && m < |lines[1..]|
              ensures lines[1..][m] == HeaderLine(Dims64, k + 1 + m)
            {
              assert lines[1..][m] == lines[m + 1];
            }
          }
          assert BodyLinesFrom(k + 1, lines[1..]) == BodyLinesFrom(k, lines);
        }
        forall m | FirstMismatchFrom(k, lines, m)
          ensures Run(name, Reading(k, []), lines) == Failed(LoadError(name, lines[m]))
        {
          assert m != 0;
          assert FirstMismatchFrom(k + 1, lines[1..], m - 1);
        }
      } else {
        RunFailed(name, LoadError(name, lines[0]), lines[1..]);
        forall m | FirstMismatchFrom(k, lines, m)
          ensures m == 0
        {
        }
      }
    }
  }

  /** The header lines expected from position k on agree with lines. */
  predicate HeaderOkFrom(k: nat, lines: seq<Line>)
    requires k <= 3
  {
    forall m :: 0 <= m < 3 - k && m < |lines| ==> lines[m] == HeaderLine(Dims64, k + m)
  }

  predicate FirstMismatchFrom(k: nat, lines: seq<Line>, m: int)
    requires k <= 3
  {
    && 0 <= m < 3 - k && m < |lines|
    && lines[m] != HeaderLine(Dims64, k + m)
    && forall j :: 0 <= j < m ==> lines[j] == HeaderLine(Dims64, k + j)
  }

  function BodyLinesFrom(k: nat, lines: seq<Line>): seq<Line>
    requires k <= 3
  {
    if |lines| <= 3 - k then [] else lines[3 - k..]
  }

  /**
   What Texture::load does with any input: a matching (possibly partial)
   header loads the texels of the later lines in order; otherwise the first
   mismatching header line is reported with the file name.
   */
  lemma LoadCharacterisation(name: string, lines: seq<Line>)
    ensures HeaderOk(Dims64, lines) ==> Load(name, lines) == Ok(Body(BodyLines(lines)))
    ensures forall k :: FirstMismatch(Dims64, lines, k) ==> Load(name, lines) == Err(LoadError(name, lines[k]))
  {
    RunHeader(name, 0, lines);
    assert HeaderOk(Dims64, lines) <==> HeaderOkFrom(0, lines);
    forall k | FirstMismatch(Dims64, lines, k)
      ensures FirstMismatchFrom(0, lines, k)
    {
    }
  }

  /** Either the header matches or some header line is the first mismatch. */
  lemma HeaderOkOrMismatch(dims: Line, lines: seq<Line>)
    ensures HeaderOk(dims, lines) || exists k :: FirstMismatch(dims, lines, k)
  {
    if !HeaderOk(dims, lines) {
      if |lines| > 0 && lines[0] != HeaderLine(dims, 0) {
        assert FirstMismatch(dims, lines, 0);
      } else if |lines| > 1 && lines[1] != HeaderLine(dims, 1) {
        assert FirstMismatch(dims, lines, 1);
      } else {
        assert FirstMismatch(dims, lines, 2);
      }
    }
  }

  /** After the exact header, every further line is body. */
  lemma LoadAfterHeader(name: string, rest: seq<Line>)
    ensures Load(name, [Magic, Dims64, MaxValue] + rest) == Ok(Body(rest))
  {
    var lines := [Magic, Dims64, MaxValue] + rest;
    LoadCharacterisation(name, lines);
    assert HeaderOk(Dims64, lines);
    assert BodyLines(lines) == rest;
  }

  /** A header-only or empty input loads without error and yields no texels. */
  lemma HeaderOnlyLoadsEmpty(name: string, lines: seq<Line>)
    requires |lines| <= 3 && HeaderOk(Dims64, lines)
    ensures Load(name, lines) == Ok([])
  {
    LoadCharacterisation(name, lines);
  }

  lemma {:induction false} BodySnoc(lines: seq<Line>, s: Line)
    ensures Body(lines + [s]) == Body(lines) + Texels(s)
  {
    if |lines| == 0 {
      assert lines + [s] == [s];
    } else {
      assert (lines + [s])[1..] == lines[1..] + [s];
      BodySnoc(lines[1..], s);
    }
  }

  /**
   One more body line appends its texels and leaves every earlier texel
   as it was.
   */
  lemma LoadAppendsLine(name: string, lines: seq<Line>, s: Line)
    requires |lines| >= 3
    requires Load(name, lines).Ok?
    ensures Load(name, lines + [s]) == Ok(Load(name, lines).value + Texels(s))
  {
    LoadCharacterisation(name, lines);
    LoadCharacterisation(name, lines + [s]);
    HeaderOkOrMismatch(Dims64, lines);
    assert HeaderOk(Dims64, lines);
    assert HeaderOk(Dims64, lines + [s]);
    assert BodyLines(lines + [s]) == BodyLines(lines) + [s];
    BodySnoc(BodyLines(lines), s);
  }

  lemma {:induction false} BodyFits(lines: seq<Line>)
    ensures AllFit(Body(lines))
  {
    if |lines| > 0 {
      TexelsFit(lines[0]);
      BodyFits(lines[1..]);
    }
  }

  /** Every loaded texel is a 24-bit colour. */
  lemma LoadedTexelsFit(name: string, lines: seq<Line>)
    requires Load(name, lines).Ok?
    ensures AllFit(Load(name, lines).value)
  {
    LoadCharacterisation(name, lines);
    HeaderOkOrMismatch(Dims64, lines);
    BodyFits(BodyLines(lines));
  }

  /** The loaded texture. */
  datatype Texture = Texture(data: seq<Texel>)

  /** The const operator[]: texel i (no bounds check in the source). */
  function At(t: Texture, i: int): Texel
    requires 0 <= i < |t.data|
  {
    t.data[i]
  }

  /** A write through the mutable operator[]: index i takes v and nothing else changes. */
  function Update(t: Texture, i: int, v: Texel): (r: Texture)
    requires 0 <= i < |t.data|
    ensures |r.data| == |t.data| && r.data[i] == v
    ensures forall k :: 0 <= k < |t.data| && k != i ==> r.data[k] == t.data[k]
  {
    Texture(t.data[i := v])
  }

  /** Reading after a write sees the write at i and the old entry elsewhere. */
  lemma ReadAfterUpdate(t: Texture, i: int, v: Texel, k: int)
    requires 0 <= i < |t.data| && 0 <= k < |t.data|
    ensures At(Update(t, i, v), k) == if k == i then v else At(t, k)
  {
  }
}
