/**
 The older 32x32 texture loader: the same three header checks, then a single
 body line whose bytes are stored raw, one int per byte. Any fifth line is
 fatal because the default label shares the error block.
 */
module LegacyTextures {
  import opened Results
  import Textures

  type Byte = Textures.Byte
  type Line = Textures.Line

  /** "32 32" */
  const Dims32: Line := [0x33, 0x32, 0x20, 0x33, 0x32]

  /**
   `const int c` taken from a `char`: whether plain char is signed is up to
   the platform, so it is a parameter here.
   */
  function CharValue(b: Byte, signedChar: bool): (v: int)
    ensures signedChar ==> -128 <= v < 128
    ensures !signedChar ==> 0 <= v < 256
    ensures v % 256 == b as int
  {
    if signedChar && b >= 0x80 then b as int - 256 else b as int
  }

  /** One stored entry per byte of the line, in order. */
  function Entries(s: Line, signedChar: bool): (es: seq<int>)
    ensures |es| == |s|
    ensures forall i :: 0 <= i < |s| ==> es[i] == CharValue(s[i], signedChar)
  {
    seq(|s|, i requires 0 <= i < |s| => CharValue(s[i], signedChar))
  }

  datatype Loader = Reading(line: nat, data: seq<int>) | Failed(error: Textures.LoadError)

  /** One iteration of the legacy line loop: lines 0..2 are the header, line 3 the body, line 4 on is fatal. */
  function Feed(name: string, signedChar: bool, st: Loader, s: Line): Loader
  {
    match st
    case Failed(_) => st
    case Reading(k, data) =>
      if k < 3 then
        if s != Textures.HeaderLine(Dims32, k) then Failed(Textures.LoadError(name, s)) else Reading(k + 1, data)
      else if k == 3 then
        Reading(4, data + Entries(s, signedChar))
      else
        Failed(Textures.LoadError(name, s))
  }

  function Run(name: string, signedChar: bool, st: Loader, lines: seq<Line>): Loader
    decreases |lines|
  {
    if |lines| == 0 then st else Run(name, signedChar, Feed(name, signedChar, st, lines[0]), lines[1..])
  }

  /** The legacy Texture::load over the file's lines. */
  function Load(name: string, signedChar: bool, lines: seq<Line>): Result<seq<int>, Textures.LoadError>
  {
    match Run(name, signedChar, Reading(0, []), lines)
    case Reading(_, data) => Ok(data)
    case Failed(e) => Err(e)
  }

  lemma {:induction false} RunFailed(name: string, signedChar: bool, e: Textures.LoadError, lines: seq<Line>)
    ensures Run(name, signedChar, Failed(e), lines) == Failed(e)
  {
    if |lines| > 0 {
      RunFailed(name, signedChar, e, lines[1..]);
    }
  }

  /** The header checks, then the body line, then line 4 (if any) fails. */
  lemma LoadSteps(name: string, signedChar: bool, lines: seq<Line>)
    ensures |lines| >= 1 && lines[0] != Textures.Magic ==> Load(name, signedChar, lines) == Err(Textures.LoadError(name, lines[0]))
    ensures |lines| >= 2 && lines[0] == Textures.Magic && lines[1] != Dims32 ==>
      Load(name, signedChar, lines) == Err(Textures.LoadError(name, lines[1]))
    ensures |lines| >= 3 && lines[0] == Textures.Magic && lines[1] == Dims32 && lines[2] != Textures.MaxValue ==>
      Load(name, signedChar, lines) == Err(Textures.LoadError(name, lines[2]))
    ensures Textures.HeaderOk(Dims32, lines) && |lines| <= 3 ==> Load(name, signedChar, lines) == Ok([])
    ensures Textures.HeaderOk(Dims32, lines) && |lines| == 4 ==> Load(name, signedChar, lines) == Ok(Entries(lines[3], signedChar))
    ensures Textures.HeaderOk(Dims32, lines) && |lines| > 4 ==> Load(name, signedChar, lines) == Err(Textures.LoadError(name, lines[4]))
  {
    var st := Reading(0, []);
    if |lines| == 0 {
      return;
    }
    var st1 := Feed(name, signedChar, st, lines[0]);
    assert Run(name, signedChar, st, lines) == Run(name, signedChar, st1, lines[1..]);
    if lines[0] != Textures.Magic {
      RunFailed(name, signedChar, Textures.LoadError(name, lines[0]), lines[1..]);
      return;
    }
    if |lines| == 1 {
      return;
    }
    var st2 := Feed(name, signedChar, st1, lines[1]);
    assert lines[1..][1..] == lines[2..];
    assert Run(name, signedChar, st1, lines[1..]) == Run(name, signedChar, st2, lines[2..]);
    if lines[1] != Dims32 {
      RunFailed(name, signedChar, Textures.LoadError(name, lines[1]), lines[2..]);
      return;
    }
    if |lines| == 2 {
      return;
    }
    var st3 := Feed(name, signedChar, st2, lines[2]);
    assert lines[2..][1..] == lines[3..];
    assert Run(name, signedChar, st2, lines[2..]) == Run(name, signedChar, st3, lines[3..]);
    if lines[2] != Textures.MaxValue {
      RunFailed(name, signedChar, Textures.LoadError(name, lines[2]), lines[3..]);
      return;
    }
    if |lines| == 3 {
      return;
    }
    var st4 := Feed(name, signedChar, st3, lines[3]);
    assert lines[3..][1..] == lines[4..];
    assert Run(name, signedChar, st3, lines[3..]) == Run(name, signedChar, st4, lines[4..]);
    if |lines| == 4 {
      assert st3 == Reading(3, []);
      assert [] + Entries(lines[3], signedChar) == Entries(lines[3], signedChar);
      assert Run(name, signedChar, st4, lines[4..]) == st4;
      return;
    }
    var st5 := Feed(name, signedChar, st4, lines[4]);
    assert lines[4..][1..] == lines[5..];
    assert Run(name, signedChar, st4, lines[4..]) == Run(name, signedChar, st5, lines[5..]);
    RunFailed(name, signedChar, Textures.LoadError(name, lines[4]), lines[5..]);
  }

  /** A successful load holds exactly one entry per byte of line 3; 32 * 32 * 3 is never checked. */
  lemma LoadedEntryCount(name: string, signedChar: bool, lines: seq<Line>)
    requires Load(name, signedChar, lines).Ok?
    ensures |lines| <= 4
    ensures |lines| == 4 ==> |Load(name, signedChar, lines).value| == |lines[3]|
    ensures |lines| < 4 ==> Load(name, signedChar, lines).value == []
  {
    LoadSteps(name, signedChar, lines);
  }

  /** The loaded texture: raw byte entries. */
  datatype Texture = Texture(data: seq<int>)

  /** The const operator[]: entry i (no bounds check in the source). */
  function At(t: Texture, i: int): int
    requires 0 <= i < |t.data|
  {
    t.data[i]
  }

  /** A write through the mutable operator[]: index i takes v and nothing else changes. */
  function Update(t: Texture, i: int, v: int): (r: Texture)
    requires 0 <= i < |t.data|
    ensures |r.data| == |t.data| && r.data[i] == v
    ensures forall k :: 0 <= k < |t.data| && k != i ==> r.data[k] == t.data[k]
  {
    Texture(t.data[i := v])
  }

  /** Reading after a write sees the write at i and the old entry elsewhere. */
  lemma ReadAfterUpdate(t: Texture, i: int, v: int, k: int)
    requires 0 <= i < |t.data| && 0 <= k < |t.data|
    ensures At(Update(t, i, v), k) == if k == i then v else At(t, k)
  {
  }
}
