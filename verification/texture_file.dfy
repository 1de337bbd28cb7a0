/**
 The 64x64 loader applied to a whole file. Texture::load reads the file with
 std::getline, so the binary pixel body is cut at every 0x0A byte as if it
 were text; `LoadFile` is that behaviour. `LoadFileRaw` is the loader the
 format calls for: three header lines, then every remaining byte as pixel
 data.
 */
module TextureFiles {
  import opened Results
  import opened Textures

  const Newline: Byte := 0x0A

  /** The exact header a 64x64 P6 file starts with. */
  const Header64: Line := Magic + [Newline] + Dims64 + [Newline] + MaxValue + [Newline]

  /** The index of the first newline byte, or the length when there is none. */
  function LineEnd(s: Line): (k: nat)
    ensures k <= |s|
    ensures forall i :: 0 <= i < k ==> s[i] != Newline
    ensures k < |s| ==> s[k] == Newline
    decreases |s|
  {
    if |s| == 0 || s[0] == Newline then 0 else 1 + LineEnd(s[1..])
  }

  /**
   The lines std::getline yields: the text between newlines, each newline
   consumed; a last piece without a newline is a line when it is not empty.
   */
  function SplitLines(s: Line): seq<Line>
    decreases |s|
  {
    if |s| == 0 then []
    else
      var k := LineEnd(s);
      if k == |s| then [s] else [s[..k]] + SplitLines(s[k + 1..])
  }

  /** The loader as written: the whole file goes through getline. */
  function LoadFile(name: string, file: Line): Result<seq<Texel>, LoadError>
  {
    Load(name, SplitLines(file))
  }

  lemma LineEndOfLine(line: Line, rest: Line)
    requires Newline !in line
    ensures LineEnd(line + [Newline] + rest) == |line|
  {
    var s := line + [Newline] + rest;
    var k := LineEnd(s);
    assert s[|line|] == Newline;
  }

  /** A newline-terminated line splits off the front. */
  lemma SplitOffLine(line: Line, rest: Line)
    requires Newline !in line
    ensures SplitLines(line + [Newline] + rest) == [line] + SplitLines(rest)
  {
    var s := line + [Newline] + rest;
    LineEndOfLine(line, rest);
    assert s[..|line|] == line;
    assert s[|line| + 1..] == rest;
  }

  /** A piece without newline bytes is one line (none if empty). */
  lemma SplitPlain(s: Line)
    requires Newline !in s
    ensures SplitLines(s) == if |s| == 0 then [] else [s]
  {
    if |s| > 0 {
      assert LineEnd(s) == |s|;
    }
  }

  /** The header splits into its three lines in front of whatever follows it. */
  lemma SplitHeader(body: Line)
    ensures SplitLines(Header64 + body) == [Magic, Dims64, MaxValue] + SplitLines(body)
  {
    var s2 := MaxValue + [Newline] + body;
    var s1 := Dims64 + [Newline] + s2;
    HeaderNests(body);
    HeaderLinesPlain();
    calc {
      SplitLines(Header64 + body);
      SplitLines(Magic + [Newline] + s1);
      { SplitOffLine(Magic, s1); }
      [Magic] + SplitLines(s1);
      { SplitOffLine(Dims64, s2); }
      [Magic] + ([Dims64] + SplitLines(s2));
      { SplitOffLine(MaxValue, body); }
      [Magic] + ([Dims64] + ([MaxValue] + SplitLines(body)));
      [Magic, Dims64, MaxValue] + SplitLines(body);
    }
  }

  /** The header lines hold no newline byte. */
  lemma HeaderLinesPlain()
    ensures Newline !in Magic && Newline !in Dims64 && Newline !in MaxValue
  {
  }

  lemma HeaderNests(body: Line)
    ensures Header64 + body == Magic + [Newline] + (Dims64 + [Newline] + (MaxValue + [Newline] + body))
  {
  }

  /**
   The corrected header reader: check header lines k .. 2 one line at a time
   and hand back every byte after the third newline untouched.
   */
  function ReadHeader(name: string, s: Line, k: nat): Result<Line, LoadError>
    requires k <= 3
    decreases 3 - k
  {
    if k == 3 || |s| == 0 then Ok(s)
    else
      var n := LineEnd(s);
      if s[..n] != HeaderLine(Dims64, k) then Err(LoadError(name, s[..n]))
      else ReadHeader(name, s[if n < |s| then n + 1 else n..], k + 1)
  }

  /** The corrected loader: header lines as before, then the body as raw bytes. */
  function LoadFileRaw(name: string, file: Line): Result<seq<Texel>, LoadError>
  {
    match ReadHeader(name, file, 0)
    case Ok(body) => Ok(Texels(body))
    case Err(e) => Err(e)
  }

  /** A correct header line and its newline are consumed, moving on to the next header position. */
  lemma ReadHeaderLine(name: string, line: Line, rest: Line, k: nat)
    requires k < 3 && line == HeaderLine(Dims64, k)
    ensures ReadHeader(name, line + [Newline] + rest, k) == ReadHeader(name, rest, k + 1)
  {
    HeaderLinesPlain();
    var s := line + [Newline] + rest;
    LineEndOfLine(line, rest);
    assert s[..|line|] == line;
    assert s[|line| + 1..] == rest;
  }

  /** The corrected reader hands back exactly the bytes after the header. */
  lemma ReadHeaderOfHeader(name: string, body: Line)
    ensures ReadHeader(name, Header64 + body, 0) == Ok(body)
  {
    var s2 := MaxValue + [Newline] + body;
    var s1 := Dims64 + [Newline] + s2;
    calc {
      ReadHeader(name, Header64 + body, 0);
      { HeaderNests(body); }
      ReadHeader(name, Magic + [Newline] + s1, 0);
      { ReadHeaderLine(name, Magic, s1, 0); }
      ReadHeader(name, s1, 1);
      { ReadHeaderLine(name, Dims64, s2, 1); }
      ReadHeader(name, s2, 2);
      { ReadHeaderLine(name, MaxValue, body, 2); }
      ReadHeader(name, body, 3);
    }
  }

  /** The packed texels written back out as bytes, three per texel. */
  function Encode(ts: seq<Texel>): Line
    decreases |ts|
  {
    if |ts| == 0 then [] else [Unpack(ts[0]).r, Unpack(ts[0]).g, Unpack(ts[0]).b] + Encode(ts[1..])
  }

  lemma {:induction false} TexelsOfEncode(ts: seq<Texel>)
    requires AllFit(ts)
    ensures Texels(Encode(ts)) == ts
  {
    if |ts| > 0 {
      var e := Encode(ts);
      assert e[3..] == Encode(ts[1..]);
      PackUnpack(ts[0]);
      TexelsOfEncode(ts[1..]);
    }
  }

  /**
   The round trip the format promises, for the corrected loader: a 64x64
   header followed by the bytes of any 24-bit texels loads those texels,
   whatever bytes they contain.
   */
  lemma RawRoundTrip(name: string, ts: seq<Texel>)
    requires AllFit(ts)
    ensures LoadFileRaw(name, Header64 + Encode(ts)) == Ok(ts)
  {
    ReadHeaderOfHeader(name, Encode(ts));
    TexelsOfEncode(ts);
  }

  /** As written, the body is whatever lines getline cuts it into. */
  lemma LoadFileOfHeader(name: string, body: Line)
    ensures LoadFile(name, Header64 + body) == Ok(Body(SplitLines(body)))
  {
    SplitHeader(body);
    LoadAfterHeader(name, SplitLines(body));
  }

  /** Corrected, the body is all the bytes after the header. */
  lemma LoadFileRawOfHeader(name: string, body: Line)
    ensures LoadFileRaw(name, Header64 + body) == Ok(Texels(body))
  {
    ReadHeaderOfHeader(name, body);
  }

  lemma BodySingle(s: Line)
    ensures Body([s]) == Texels(s)
  {
    assert [s][1..] == [];
  }

  /** Without 0x0A bytes in the body the loader as written and the corrected one agree. */
  lemma AgreeWithoutNewlineBytes(name: string, body: Line)
    requires Newline !in body
    ensures LoadFile(name, Header64 + body) == LoadFileRaw(name, Header64 + body) == Ok(Texels(body))
  {
    LoadFileOfHeader(name, body);
    LoadFileRawOfHeader(name, body);
    SplitPlain(body);
    if |body| > 0 {
      BodySingle(body);
    }
  }

  /** The sample body of the counterexample: one 0x0A byte among six pixel bytes. */
  const SampleBody: Line := [0x01, 0x02, 0x0A, 0x04, 0x05, 0x06]

  lemma SampleBodyLines()
    ensures SplitLines(SampleBody) == [[0x01, 0x02], [0x04, 0x05, 0x06]]
  {
    var first: Line := [0x01, 0x02];
    var second: Line := [0x04, 0x05, 0x06];
    assert SampleBody == first + [Newline] + second;
    SplitOffLine(first, second);
    SplitPlain(second);
  }

  lemma SampleBodyAsWritten()
    ensures Body([[0x01, 0x02], [0x04, 0x05, 0x06]]) == [Pack(0x04, 0x05, 0x06)]
  {
    var first: Line := [0x01, 0x02];
    var second: Line := [0x04, 0x05, 0x06];
    assert Texels(first) == [];
    assert second[3..] == [];
    assert Texels(second) == [Pack(0x04, 0x05, 0x06)];
    BodySingle(second);
    assert [first, second][1..] == [second];
  }

  lemma SampleBodyRaw()
    ensures Texels(SampleBody) == [Pack(0x01, 0x02, 0x0A), Pack(0x04, 0x05, 0x06)]
  {
    var second: Line := [0x04, 0x05, 0x06];
    assert SampleBody[3..] == second;
    assert second[3..] == [];
    assert Texels(second) == [Pack(0x04, 0x05, 0x06)];
  }

  /**
   A pixel byte equal to 0x0A ends a line as written: the pending red and
   green bytes are dropped and the texel count falls short of the corrected
   reading.
   */
  lemma NewlineByteLosesTexel(name: string)
    ensures LoadFile(name, Header64 + SampleBody) == Ok([Pack(0x04, 0x05, 0x06)])
    ensures LoadFileRaw(name, Header64 + SampleBody) == Ok([Pack(0x01, 0x02, 0x0A), Pack(0x04, 0x05, 0x06)])
  {
    LoadFileOfHeader(name, SampleBody);
    SampleBodyLines();
    SampleBodyAsWritten();
    LoadFileRawOfHeader(name, SampleBody);
    SampleBodyRaw();
  }
}
