/**
 The PNG writer (src/brand/mark-renderer.ts:163-198) against readers: the header reader of the design
 inspector (src/mockups/file-inspector.ts:34) and a decoder written from RFC 2083. The deflate of zlib
 is a function that some inflate undoes.
 */
module Png {
  import opened Bytes
  import Crc32

  const SIGNATURE: seq<Byte> := [137, 80, 78, 71, 13, 10, 26, 10]
  const IHDR: seq<Byte> := [73, 72, 68, 82]
  const IDAT: seq<Byte> := [73, 68, 65, 84]
  const IEND: seq<Byte> := [73, 69, 78, 68]

  const LIMIT := 0x1_0000_0000

  // ---- numbers ----

  function Be32(v: nat): (s: seq<Byte>)
    requires v < LIMIT
    ensures |s| == 4
  {
    [ByteOf(v / 0x100_0000), ByteOf(v / 0x1_0000 % 256), ByteOf(v / 256 % 256), ByteOf(v % 256)]
  }

  function ReadBe32(s: seq<Byte>): nat
    requires |s| >= 4
  {
    U32(s[0], s[1], s[2], s[3])
  }

  lemma Be32RoundTrip(v: nat, rest: seq<Byte>)
    requires v < LIMIT
    ensures ReadBe32(Be32(v) + rest) == v
  {
    hide ByteOf, Value;
    Digits(v);
  }

  lemma Digits(v: nat)
    requires v < LIMIT
    ensures v / 0x100_0000 < 256
    ensures ((v / 0x100_0000) * 256 + v / 0x1_0000 % 256) * 0x1_0000 + (v / 256 % 256) * 256 + v % 256 == v
  {
    assert v / 0x1_0000 == (v / 256) / 256 && v / 0x100_0000 == (v / 0x1_0000) / 256;
  }

  function WordBytes(c: Crc32.Word): (s: seq<Byte>)
    ensures |s| == 4
  {
    [(c >> 24) as Byte, ((c >> 16) & 0xff) as Byte, ((c >> 8) & 0xff) as Byte, (c & 0xff) as Byte]
  }

  // ---- chunks (RFC 2083, sections 3.2 and 3.4) ----

  datatype Chunk = Chunk(kind: seq<Byte>, payload: seq<Byte>)

  predicate Encodable(c: Chunk) { |c.kind| == 4 && |c.payload| < LIMIT }

  function EncodeChunk(c: Chunk): (s: seq<Byte>)
    requires Encodable(c)
    ensures |s| == |c.payload| + 12
  {
    Be32(|c.payload|) + c.kind + c.payload + WordBytes(Crc32.Crc(c.kind + c.payload))
  }

  function EncodeChunks(cs: seq<Chunk>): seq<Byte>
    requires forall c :: c in cs ==> Encodable(c)
  {
    if cs == [] then [] else EncodeChunk(cs[0]) + EncodeChunks(cs[1..])
  }

  /** Reads one chunk, checking its length and its CRC. */
  function ReadChunk(s: seq<Byte>): (r: Option<Chunk>)
    ensures r.Some? ==> |r.value.payload| + 12 <= |s|
  {
    if |s| < 12 then None
    else
      var n := ReadBe32(s);
      if n + 12 > |s| then None
      else if s[8 + n..12 + n] != WordBytes(Crc32.Crc(s[4..8] + s[8..8 + n])) then None
      else Some(Chunk(s[4..8], s[8..8 + n]))
  }

  function ReadChunks(s: seq<Byte>): Option<seq<Chunk>>
    decreases |s|
  {
    if s == [] then Some([])
    else
      var first := ReadChunk(s);
      if first.None? then None
      else
        var rest := ReadChunks(s[|first.value.payload| + 12..]);
        if rest.None? then None else Some([first.value] + rest.value)
  }

  lemma ChunkRoundTrip(c: Chunk, rest: seq<Byte>)
    requires Encodable(c)
    ensures ReadChunk(EncodeChunk(c) + rest) == Some(c)
  {
    hide WordBytes, Be32, ReadBe32, Crc32.Crc;
    var s := EncodeChunk(c) + rest;
    var n := |c.payload|;
    Be32RoundTrip(n, s[4..]);
    assert s == Be32(n) + s[4..];
    assert s[4..8] == c.kind && s[8..8 + n] == c.payload;
  }

  lemma {:induction false} ChunksRoundTrip(cs: seq<Chunk>)
    requires forall c :: c in cs ==> Encodable(c)
    ensures ReadChunks(EncodeChunks(cs)) == Some(cs)
  {
    hide ReadChunk, EncodeChunk;
    if cs != [] {
      var rest := EncodeChunks(cs[1..]);
      ChunkRoundTrip(cs[0], rest);
      ChunksRoundTrip(cs[1..]);
      assert (EncodeChunk(cs[0]) + rest)[|cs[0].payload| + 12..] == rest;
      assert cs == [cs[0]] + cs[1..];
    }
  }

  // ---- scanlines (RFC 2083, section 6.1): each row behind a filter byte 0 ----

  /** Row y of the image; the buffer is zero where the pixel array is too short. */
  function Row(rgba: seq<Byte>, stride: nat, y: nat): (r: seq<Byte>)
    ensures |r| == stride
  {
    seq(stride, k requires 0 <= k < stride => if y * stride + k < |rgba| then rgba[y * stride + k] else 0)
  }

  /** Where line y starts in the raw buffer. */
  function LineStart(y: int, line: nat): int { y * line }

  lemma NextLine(y: int, line: nat, height: int)
    ensures LineStart(0, line) == 0 && LineStart(y + 1, line) == LineStart(y, line) + line
    ensures y < height ==> LineStart(y + 1, line) <= LineStart(height, line)
    ensures 0 <= y ==> 0 <= LineStart(y, line)
  {
    Distribute(y + 1, height - (y + 1), line);
    Distribute(y, 1, line);
    if y < height { NonNegative(height - (y + 1), line); }
    if 0 <= y { NonNegative(y, line); }
  }

  lemma Distribute(a: int, b: int, c: int)
    ensures (a + b) * c == a * c + b * c
  {
  }

  lemma NonNegative(a: nat, b: nat)
    ensures 0 <= a * b
  {
  }

  function Scanlines(rgba: seq<Byte>, stride: nat, height: nat): (r: seq<Byte>)
    ensures |r| == LineStart(height, stride + 1)
  {
    NextLine(height - 1, stride + 1, height);
    if height == 0 then [] else Scanlines(rgba, stride, height - 1) + [0] + Row(rgba, stride, height - 1)
  }

  function Rows(rgba: seq<Byte>, stride: nat, height: nat): seq<Byte> {
    if height == 0 then [] else Rows(rgba, stride, height - 1) + Row(rgba, stride, height - 1)
  }

  /** Removes the filter bytes; only filter type 0 is understood. */
  function Unfilter(raw: seq<Byte>, stride: nat, height: nat): Option<seq<Byte>> {
    if height == 0 then if raw == [] then Some([]) else None
    else if |raw| < stride + 1 then None
    else
      var start := |raw| - stride - 1;
      var above := Unfilter(raw[..start], stride, height - 1);
      if raw[start] != 0 || above.None? then None else Some(above.value + raw[start + 1..])
  }

  lemma {:induction false} UnfilterScanlines(rgba: seq<Byte>, stride: nat, height: nat)
    ensures Unfilter(Scanlines(rgba, stride, height), stride, height) == Some(Rows(rgba, stride, height))
  {
    hide Row;
    if height > 0 {
      var above, last := Scanlines(rgba, stride, height - 1), Row(rgba, stride, height - 1);
      UnfilterScanlines(rgba, stride, height - 1);
      var raw := above + [0] + last;
      assert raw[..|raw| - stride - 1] == above && raw[|raw| - stride - 1 + 1..] == last;
    }
  }

  lemma {:induction false} RowsAreThePixels(rgba: seq<Byte>, stride: nat, height: nat)
    requires height * stride <= |rgba|
    ensures Rows(rgba, stride, height) == rgba[..height * stride]
  {
    if height > 0 {
      var y := height - 1;
      assert y * stride + stride == height * stride;
      RowsAreThePixels(rgba, stride, y);
      RowWithin(rgba, stride, y);
      hide Row;
      assert rgba[..y * stride] + rgba[y * stride..y * stride + stride] == rgba[..height * stride];
    }
  }

  lemma RowWithin(rgba: seq<Byte>, stride: nat, y: nat)
    requires y * stride + stride <= |rgba|
    ensures Row(rgba, stride, y) == rgba[y * stride..y * stride + stride]
  {
  }

  /** Writes the filter byte and row y at `target`; bytes past the end of rgba stay as they are. */
  method FillRow(raw: array<Byte>, target: nat, rgba: seq<Byte>, stride: nat, y: nat)
    requires target + stride + 1 <= raw.Length
    requires forall k :: target <= k < raw.Length ==> raw[k] == 0
    modifies raw
    ensures raw[..target + 1 + stride] == old(raw[..target]) + [0] + Row(rgba, stride, y)
    ensures forall k :: target + 1 + stride <= k < raw.Length ==> raw[k] == 0
  {
    raw[target] := 0;
    var offset := y * stride;
    var start, end := Smaller(offset, |rgba|), Smaller(offset + stride, |rgba|);
    var piece := rgba[start..end];
    forall k | 0 <= k < |piece| { raw[target + 1 + k] := piece[k]; }
    ghost var row := Row(rgba, stride, y);
    assert forall k :: 0 <= k < stride ==> row[k] == if offset + k < |rgba| then rgba[offset + k] else 0;
    hide Row;
    assert forall k :: 0 <= k < stride ==> raw[target + 1 + k] == row[k];
  }

  /** The loop of the source fills the raw buffer row by row, in place. */
  method FillScanlines(rgba: seq<Byte>, stride: nat, height: nat) returns (raw: array<Byte>)
    ensures fresh(raw) && raw[..] == Scanlines(rgba, stride, height)
  {
    hide Row, LineStart;
    NextLine(height, stride + 1, height);
    raw := new Byte[LineStart(height, stride + 1)](_ => 0);
    var y := 0;
    while y < height
      invariant 0 <= y <= height
      invariant 0 <= LineStart(y, stride + 1) <= raw.Length == LineStart(height, stride + 1)
      invariant raw[..LineStart(y, stride + 1)] == Scanlines(rgba, stride, y)
      invariant forall k :: LineStart(y, stride + 1) <= k < raw.Length ==> raw[k] == 0
    {
      var target := LineStart(y, stride + 1);
      NextLine(y, stride + 1, height);
      FillRow(raw, target, rgba, stride, y);
      y := y + 1;
    }
  }

  function Smaller(a: nat, b: nat): nat { if a < b then a else b }

  // ---- whole files ----

  function Header(width: nat, height: nat): (s: seq<Byte>)
    requires width < LIMIT && height < LIMIT
    ensures |s| == 13
  {
    Be32(width) + Be32(height) + [8, 6, 0, 0, 0]
  }

  /** The file, or nothing where a number does not fit its four bytes and the source throws. */
  function EncodePng(deflate: seq<Byte> -> seq<Byte>, rgba: seq<Byte>, width: nat, height: nat): Option<seq<Byte>> {
    var data := deflate(Scanlines(rgba, width * 4, height));
    if width >= LIMIT || height >= LIMIT || |data| >= LIMIT then None
    else Some(SIGNATURE + EncodeChunks([Chunk(IHDR, Header(width, height)), Chunk(IDAT, data), Chunk(IEND, [])]))
  }

  datatype Image = Image(width: nat, height: nat, rgba: seq<Byte>)

  /** Reads an 8-bit RGBA file without interlacing, of three chunks, with filter type 0. */
  function DecodePng(inflate: seq<Byte> -> seq<Byte>, s: seq<Byte>): Option<Image> {
    if |s| < 8 || s[..8] != SIGNATURE then None
    else
      var chunks := ReadChunks(s[8..]);
      if chunks.None? || |chunks.value| != 3 then None
      else DecodeChunks(inflate, chunks.value[0], chunks.value[1], chunks.value[2])
  }

  function DecodeChunks(inflate: seq<Byte> -> seq<Byte>, header: Chunk, data: Chunk, end: Chunk): Option<Image> {
    if header.kind != IHDR || data.kind != IDAT || end != Chunk(IEND, []) || |header.payload| != 13
       || header.payload[8..] != [8, 6, 0, 0, 0] then None
    else
      var width, height := ReadBe32(header.payload), ReadBe32(header.payload[4..]);
      var pixels := Unfilter(inflate(data.payload), width * 4, height);
      if pixels.None? then None else Some(Image(width, height, pixels.value))
  }

  ghost predicate Inverse(inflate: seq<Byte> -> seq<Byte>, deflate: seq<Byte> -> seq<Byte>) {
    forall s :: inflate(deflate(s)) == s
  }

  lemma HeaderFields(width: nat, height: nat)
    requires width < LIMIT && height < LIMIT
    ensures ReadBe32(Header(width, height)) == width && ReadBe32(Header(width, height)[4..]) == height
    ensures Header(width, height)[8..] == [8, 6, 0, 0, 0]
  {
    Be32RoundTrip(width, Be32(height) + [8, 6, 0, 0, 0]);
    Be32RoundTrip(height, [8, 6, 0, 0, 0]);
    hide Be32, ReadBe32;
    assert Header(width, height) == Be32(width) + (Be32(height) + [8, 6, 0, 0, 0]);
    assert Header(width, height)[4..] == Be32(height) + [8, 6, 0, 0, 0];
  }

  lemma PixelsBack(rgba: seq<Byte>, width: nat, height: nat)
    requires |rgba| == width * height * 4
    ensures Unfilter(Scanlines(rgba, width * 4, height), width * 4, height) == Some(rgba)
  {
    UnfilterScanlines(rgba, width * 4, height);
    assert height * (width * 4) == |rgba|;
    RowsAreThePixels(rgba, width * 4, height);
    hide *;
    assert rgba[..|rgba|] == rgba;
  }

  lemma ChunksBack(deflate: seq<Byte> -> seq<Byte>, inflate: seq<Byte> -> seq<Byte>, rgba: seq<Byte>, width: nat, height: nat)
    requires Inverse(inflate, deflate) && |rgba| == width * height * 4 && width < LIMIT && height < LIMIT
    ensures DecodeChunks(inflate, Chunk(IHDR, Header(width, height)), Chunk(IDAT, deflate(Scanlines(rgba, width * 4, height))), Chunk(IEND, []))
         == Some(Image(width, height, rgba))
  {
    hide Scanlines, Unfilter, Header, ReadBe32;
    HeaderFields(width, height);
    PixelsBack(rgba, width, height);
  }

  /** Every chunk of the written file, and nothing else, is read back with the right length and CRC. */
  lemma FileChunks(deflate: seq<Byte> -> seq<Byte>, rgba: seq<Byte>, width: nat, height: nat)
    requires EncodePng(deflate, rgba, width, height).Some?
    ensures var s := EncodePng(deflate, rgba, width, height).value;
            && |s| > 8 && s[..8] == SIGNATURE
            && ReadChunks(s[8..]) == Some([Chunk(IHDR, Header(width, height)),
                                           Chunk(IDAT, deflate(Scanlines(rgba, width * 4, height))), Chunk(IEND, [])])
  {
    var chunks := [Chunk(IHDR, Header(width, height)), Chunk(IDAT, deflate(Scanlines(rgba, width * 4, height))), Chunk(IEND, [])];
    SomeChunks(chunks);
    hide Scanlines, ReadChunks, EncodeChunks, Header;
    ChunksRoundTrip(chunks);
    var s := EncodePng(deflate, rgba, width, height).value;
    assert s[8..] == EncodeChunks(chunks);
  }

  lemma SomeChunks(cs: seq<Chunk>)
    requires cs != [] && forall c :: c in cs ==> Encodable(c)
    ensures |EncodeChunks(cs)| > 0
  {
    hide EncodeChunk;
  }

  /** Writing an image and reading it back gives its size and the same RGBA array. */
  lemma PngRoundTrip(deflate: seq<Byte> -> seq<Byte>, inflate: seq<Byte> -> seq<Byte>, rgba: seq<Byte>, width: nat, height: nat)
    requires Inverse(inflate, deflate) && |rgba| == width * height * 4
    requires EncodePng(deflate, rgba, width, height).Some?
    ensures DecodePng(inflate, EncodePng(deflate, rgba, width, height).value) == Some(Image(width, height, rgba))
  {
    FileChunks(deflate, rgba, width, height);
    FileFits(deflate, rgba, width, height);
    ChunksBack(deflate, inflate, rgba, width, height);
    hide Inverse, EncodePng, ReadChunks, DecodeChunks, Header, Scanlines;
  }

  lemma FileFits(deflate: seq<Byte> -> seq<Byte>, rgba: seq<Byte>, width: nat, height: nat)
    requires EncodePng(deflate, rgba, width, height).Some?
    ensures width < LIMIT && height < LIMIT
  {
  }

  // ---- the inspector's reader ----

  function PngDimensions(data: seq<Byte>): Option<Dimensions> {
    if |data| < 24 || data[..8] != SIGNATURE || data[12..16] != IHDR then None
    else
      var width, height := ReadBe32(data[16..]), ReadBe32(data[20..]);
      if width != 0 && height != 0 then Some(Dimensions(width, height)) else None
  }

  lemma FirstFour(s: seq<Byte>, t: seq<Byte>)
    requires |s| >= 4 && |t| >= 4 && s[..4] == t[..4]
    ensures ReadBe32(s) == ReadBe32(t)
  {
    hide U32;
    assert s[0] == s[..4][0] && s[1] == s[..4][1] && s[2] == s[..4][2] && s[3] == s[..4][3];
  }

  lemma DimensionsOfStart(data: seq<Byte>)
    requires |data| >= 24
    ensures PngDimensions(data) == PngDimensions(data[..24])
  {
    var start := data[..24];
    assert start[..8] == data[..8] && start[12..16] == data[12..16];
    assert start[16..][..4] == data[16..][..4] && start[20..][..4] == data[20..][..4];
    FirstFour(start[16..], data[16..]);
    FirstFour(start[20..], data[20..]);
    hide ReadBe32;
  }

  lemma StartOfHeaderChunk(width: nat, height: nat)
    requires width < LIMIT && height < LIMIT
    ensures EncodeChunk(Chunk(IHDR, Header(width, height)))[..16] == Be32(13) + IHDR + Be32(width) + Be32(height)
  {
    hide WordBytes, Be32, Crc32.Crc;
    var header := Header(width, height);
    assert header[..8] == Be32(width) + Be32(height);
    assert EncodeChunk(Chunk(IHDR, header))[..16] == Be32(13) + IHDR + header[..8];
  }

  /** The file is the signature, the header chunk and the rest. */
  lemma FileIs(deflate: seq<Byte> -> seq<Byte>, rgba: seq<Byte>, width: nat, height: nat)
    requires EncodePng(deflate, rgba, width, height).Some?
    ensures width < LIMIT && height < LIMIT
    ensures exists rest :: EncodePng(deflate, rgba, width, height).value == SIGNATURE + (EncodeChunk(Chunk(IHDR, Header(width, height))) + rest)
  {
    var data := deflate(Scanlines(rgba, width * 4, height));
    FirstChunk(Header(width, height), data);
    hide EncodeChunk, EncodeChunks, Scanlines, Header;
    var rest := EncodeChunks([Chunk(IDAT, data), Chunk(IEND, [])]);
    assert EncodePng(deflate, rgba, width, height).value == SIGNATURE + (EncodeChunk(Chunk(IHDR, Header(width, height))) + rest);
  }

  lemma Front(signature: seq<Byte>, first: seq<Byte>, rest: seq<Byte>)
    requires |signature| == 8 && |first| >= 16
    ensures (signature + (first + rest))[..24] == signature + first[..16]
  {
  }

  lemma StartOfFile(deflate: seq<Byte> -> seq<Byte>, rgba: seq<Byte>, width: nat, height: nat)
    requires EncodePng(deflate, rgba, width, height).Some?
    ensures |EncodePng(deflate, rgba, width, height).value| >= 24
    ensures EncodePng(deflate, rgba, width, height).value[..24] == SIGNATURE + (Be32(13) + IHDR + Be32(width) + Be32(height))
  {
    FileIs(deflate, rgba, width, height);
    StartOfHeaderChunk(width, height);
    var first := EncodeChunk(Chunk(IHDR, Header(width, height)));
    hide EncodePng, EncodeChunk, Be32, Header;
    var rest :| EncodePng(deflate, rgba, width, height).value == SIGNATURE + (first + rest);
    Front(SIGNATURE, first, rest);
  }

  lemma DimensionsOfHeader(width: nat, height: nat)
    requires width < LIMIT && height < LIMIT
    ensures PngDimensions(SIGNATURE + (Be32(13) + IHDR + Be32(width) + Be32(height)))
         == if width != 0 && height != 0 then Some(Dimensions(width, height)) else None
  {
    Be32RoundTrip(width, Be32(height));
    Be32RoundTrip(height, []);
    hide Be32, ReadBe32;
    var s := SIGNATURE + (Be32(13) + IHDR + Be32(width) + Be32(height));
    assert s[..8] == SIGNATURE && s[12..16] == IHDR && s[16..] == Be32(width) + Be32(height) && s[20..] == Be32(height) + [];
  }

  /** The inspector reads the written size from the file, or from any 24 bytes or more of its start. */
  lemma InspectorReadsSize(deflate: seq<Byte> -> seq<Byte>, rgba: seq<Byte>, width: nat, height: nat, n: nat)
    requires EncodePng(deflate, rgba, width, height).Some?
    requires 24 <= n <= |EncodePng(deflate, rgba, width, height).value|
    ensures PngDimensions(EncodePng(deflate, rgba, width, height).value[..n])
         == if width != 0 && height != 0 then Some(Dimensions(width, height)) else None
  {
    var s := EncodePng(deflate, rgba, width, height).value;
    FileFits(deflate, rgba, width, height);
    StartOfFile(deflate, rgba, width, height);
    DimensionsOfStart(s[..n]);
    DimensionsOfHeader(width, height);
    hide *;
    assert s[..n][..24] == s[..24];
  }

  lemma FirstChunk(header: seq<Byte>, data: seq<Byte>)
    requires |header| == 13 && |data| < LIMIT
    ensures EncodeChunks([Chunk(IHDR, header), Chunk(IDAT, data), Chunk(IEND, [])])
         == EncodeChunk(Chunk(IHDR, header)) + EncodeChunks([Chunk(IDAT, data), Chunk(IEND, [])])
  {
    hide EncodeChunk;
    var cs := [Chunk(IHDR, header), Chunk(IDAT, data), Chunk(IEND, [])];
    assert cs[1..] == [Chunk(IDAT, data), Chunk(IEND, [])];
  }

  // ---- the writer's buffers ----

  /** Writes a number at `offset`, or nothing when it needs more than four bytes. */
  method WriteUInt32BE(buffer: array<Byte>, v: nat, offset: nat) returns (ok: bool)
    requires offset + 4 <= buffer.Length
    modifies buffer
    ensures ok == (v < LIMIT)
    ensures buffer[..] == if v < LIMIT then old(buffer[..offset]) + Be32(v) + old(buffer[offset + 4..]) else old(buffer[..])
  {
    ok := v < LIMIT;
    if ok {
      var s := Be32(v);
      hide Be32;
      buffer[offset], buffer[offset + 1], buffer[offset + 2], buffer[offset + 3] := s[0], s[1], s[2], s[3];
    }
  }

  method BuildChunk(table: array<Crc32.Word>, kind: seq<Byte>, payload: seq<Byte>) returns (r: Option<seq<Byte>>)
    requires Crc32.IsTable(table[..]) && |kind| == 4
    ensures r == if |payload| < LIMIT then Some(EncodeChunk(Chunk(kind, payload))) else None
  {
    hide Be32, WordBytes, Crc32.IsTable, Crc32.Crc;
    ghost var entries := table[..];
    var header := new Byte[8](_ => 0);
    var ok := WriteUInt32BE(header, |payload|, 0);
    if !ok { return None; }
    ghost var length := header[..4];
    assert length == Be32(|payload|);
    forall k | 0 <= k < 4 { header[4 + k] := kind[k]; }
    assert header[..4] == length && header[4..8] == kind && table[..] == entries;
    var crc := Crc32.Compute(table, header[4..8] + payload);
    var trailer := WordBytes(crc);
    assert header[..] == length + kind;
    r := Some(header[..] + payload + trailer);
  }

  method BuildHeader(width: nat, height: nat) returns (r: Option<seq<Byte>>)
    ensures r == if width < LIMIT && height < LIMIT then Some(Header(width, height)) else None
  {
    hide Be32;
    var ihdr := new Byte[13](_ => 0);
    var ok := WriteUInt32BE(ihdr, width, 0);
    if !ok { return None; }
    assert ihdr[..4] == Be32(width);
    ok := WriteUInt32BE(ihdr, height, 4);
    if !ok { return None; }
    ghost var sizes := ihdr[..8];
    assert sizes == Be32(width) + Be32(height);
    ihdr[8], ihdr[9], ihdr[10], ihdr[11], ihdr[12] := 8, 6, 0, 0, 0;
    assert ihdr[..8] == sizes && ihdr[8..] == [8, 6, 0, 0, 0];
    assert ihdr[..] == ihdr[..8] + ihdr[8..];
    r := Some(ihdr[..]);
  }

  /** The PNG of the source, or nothing when one of its numbers does not fit. */
  method EncodeRgbaPng(table: array<Crc32.Word>, deflate: seq<Byte> -> seq<Byte>, rgba: seq<Byte>, width: nat, height: nat)
    returns (r: Option<seq<Byte>>)
    requires Crc32.IsTable(table[..])
    ensures r == EncodePng(deflate, rgba, width, height)
  {
    hide EncodeChunk, Crc32.IsTable, Be32, Scanlines, Header;
    ghost var entries := table[..];
    var raw := FillScanlines(rgba, width * 4, height);
    var data := deflate(raw[..]);
    var ihdr := BuildHeader(width, height);
    if ihdr.None? { return None; }
    assert table[..] == entries;
    var first := BuildChunk(table, IHDR, ihdr.value);
    var second := BuildChunk(table, IDAT, data);
    if second.None? { return None; }
    var third := BuildChunk(table, IEND, []);
    ThreeChunks(Chunk(IHDR, Header(width, height)), Chunk(IDAT, data), Chunk(IEND, []));
    r := Some(SIGNATURE + first.value + second.value + third.value);
  }

  lemma ThreeChunks(a: Chunk, b: Chunk, c: Chunk)
    requires Encodable(a) && Encodable(b) && Encodable(c)
    ensures SIGNATURE + EncodeChunks([a, b, c]) == SIGNATURE + EncodeChunk(a) + EncodeChunk(b) + EncodeChunk(c)
  {
    hide EncodeChunk, Encodable;
    assert [a, b, c][1..] == [b, c] && [b, c][1..] == [c] && [c][1..] == [];
    assert EncodeChunks([c]) == EncodeChunk(c) + [];
    assert EncodeChunks([b, c]) == EncodeChunk(b) + EncodeChunks([c]);
    assert EncodeChunks([a, b, c]) == EncodeChunk(a) + EncodeChunks([b, c]);
  }

  // ---- the file, byte by byte (RFC 2083, sections 3 and 4.1) ----

  /** Four bytes, the most significant first, that stand for n. */
  predicate Stands(s: seq<Byte>, n: nat) {
    |s| == 4 && ((Value(s[0]) * 256 + Value(s[1])) * 256 + Value(s[2])) * 256 + Value(s[3]) == n
  }

  predicate StandsForWord(s: seq<Byte>, c: Crc32.Word) {
    |s| == 4 && ((s[0] as Crc32.Word) << 24) | ((s[1] as Crc32.Word) << 16) | ((s[2] as Crc32.Word) << 8) | (s[3] as Crc32.Word) == c
  }

  lemma Be32Stands(v: nat)
    requires v < LIMIT
    ensures Stands(Be32(v), v)
  {
    Digits(v);
    hide ByteOf, Value;
  }

  lemma WordStands(c: Crc32.Word)
    ensures StandsForWord(WordBytes(c), c)
  {
  }

  /** A chunk at the front of s: its length, its kind, its payload and their CRC. */
  ghost predicate ChunkAt(s: seq<Byte>, kind: seq<Byte>, payload: seq<Byte>) {
    var n := |payload|;
    && |s| >= n + 12 && Stands(s[..4], n) && s[4..8] == kind && s[8..8 + n] == payload
    && StandsForWord(s[8 + n..12 + n], Crc32.Crc(kind + payload))
  }

  lemma ChunkLaidOut(c: Chunk, rest: seq<Byte>)
    requires Encodable(c)
    ensures ChunkAt(EncodeChunk(c) + rest, c.kind, c.payload)
  {
    var n := |c.payload|;
    var length, crc := Be32(n), WordBytes(Crc32.Crc(c.kind + c.payload));
    Be32Stands(n);
    WordStands(Crc32.Crc(c.kind + c.payload));
    var s := EncodeChunk(c) + rest;
    hide Be32, WordBytes, Stands, StandsForWord, Crc32.Crc;
    assert s == length + c.kind + c.payload + crc + rest;
    assert s[..4] == length && s[4..8] == c.kind && s[8..8 + n] == c.payload && s[8 + n..12 + n] == crc;
  }

  /** What the header says: the size, eight bits a sample, true colour with alpha, and methods 0, 0 and 0. */
  predicate SaysSize(header: seq<Byte>, width: nat, height: nat) {
    |header| == 13 && Stands(header[..4], width) && Stands(header[4..8], height) && header[8..] == [8, 6, 0, 0, 0]
  }

  lemma HeaderSays(width: nat, height: nat)
    requires width < LIMIT && height < LIMIT
    ensures SaysSize(Header(width, height), width, height)
  {
    Be32Stands(width);
    Be32Stands(height);
    hide Be32, Stands;
    var s := Header(width, height);
    assert s == Be32(width) + Be32(height) + [8, 6, 0, 0, 0];
    assert s[..4] == Be32(width) && s[4..8] == Be32(height);
  }

  /** A signature, a header chunk that says the size, one data chunk, and the end. */
  ghost predicate LaidOutAs(f: seq<Byte>, signature: seq<Byte>, ihdr: seq<Byte>, idat: seq<Byte>, iend: seq<Byte>,
                            width: nat, height: nat, data: seq<Byte>) {
    && |f| == 57 + |data| && f[..8] == signature
    && SaysSize(f[16..29], width, height) && ChunkAt(f[8..], ihdr, f[16..29])
    && ChunkAt(f[33..], idat, data)
    && ChunkAt(f[45 + |data|..], iend, [])
  }

  /** The letters are those of the kinds' names. */
  ghost predicate LaidOut(f: seq<Byte>, width: nat, height: nat, data: seq<Byte>) {
    LaidOutAs(f, [137, 80, 78, 71, 13, 10, 26, 10], [73, 72, 68, 82], [73, 68, 65, 84], [73, 69, 78, 68], width, height, data)
  }

  /** So every written file is laid out, around the deflated scan lines. */
  lemma FileLaidOut(deflate: seq<Byte> -> seq<Byte>, rgba: seq<Byte>, width: nat, height: nat)
    requires EncodePng(deflate, rgba, width, height).Some?
    ensures LaidOut(EncodePng(deflate, rgba, width, height).value, width, height, deflate(Scanlines(rgba, width * 4, height)))
  {
    var data := deflate(Scanlines(rgba, width * 4, height));
    var first, second, third := Chunk(IHDR, Header(width, height)), Chunk(IDAT, data), Chunk(IEND, []);
    FileFits(deflate, rgba, width, height);
    HeaderSays(width, height);
    ChunksInARow(first, second, third);
    ChunkLaidOut(first, EncodeChunk(second) + EncodeChunk(third));
    ChunkLaidOut(second, EncodeChunk(third));
    ChunkLaidOut(third, []);
    AppendNothing(EncodeChunk(third));
    var f := EncodePng(deflate, rgba, width, height).value;
    var a, b, c := EncodeChunk(first), EncodeChunk(second), EncodeChunk(third);
    var header := Header(width, height);
    assert f == SIGNATURE + (a + (b + c));
    hide Scanlines, EncodePng, EncodeChunks, EncodeChunk, ChunkAt, SaysSize, LaidOutAs, Header;
    PiecesLaidOut(f, SIGNATURE, a, b, c, IHDR, IDAT, IEND, width, height, header, data);
  }

  lemma AppendNothing<T>(s: seq<T>)
    ensures s + [] == s
  {
  }

  lemma PiecesLaidOut(f: seq<Byte>, s: seq<Byte>, a: seq<Byte>, b: seq<Byte>, c: seq<Byte>,
                      ihdr: seq<Byte>, idat: seq<Byte>, iend: seq<Byte>, width: nat, height: nat, header: seq<Byte>, data: seq<Byte>)
    requires f == s + (a + (b + c)) && |header| == 13 && |s| == 8
    requires |a| == 25 && |b| == |data| + 12 && |c| == 12
    requires SaysSize(header, width, height) && ChunkAt(a + (b + c), ihdr, header)
    requires ChunkAt(b + c, idat, data) && ChunkAt(c, iend, [])
    ensures LaidOutAs(f, s, ihdr, idat, iend, width, height, data)
  {
    hide SaysSize;
    HeaderInside(a + (b + c), a, b + c, ihdr, header);
    hide ChunkAt;
    Slices(f, s, a, b, c, |data|);
  }

  lemma Slices<T>(f: seq<T>, s: seq<T>, a: seq<T>, b: seq<T>, c: seq<T>, n: nat)
    requires f == s + (a + (b + c)) && |s| == 8 && |a| == 25 && |b| == n + 12 && |c| == 12
    ensures |f| == 57 + n && f[..8] == s && f[8..] == a + (b + c) && f[33..] == b + c && f[45 + n..] == c
    ensures f[16..29] == (a + (b + c))[8..21]
  {
    Pieces(f, s, a, b, c);
    TakeInside(f, 8, 8, 21);
  }

  lemma TakeInside<T>(f: seq<T>, start: nat, from: nat, to: nat)
    requires from <= to && start + to <= |f|
    ensures f[start..][from..to] == f[start + from..start + to]
  {
  }

  lemma ChunksNext(cs: seq<Chunk>, c: Chunk, rest: seq<Chunk>)
    requires cs == [c] + rest && forall x :: x in cs ==> Encodable(x)
    ensures (forall x :: x in rest ==> Encodable(x)) && EncodeChunks(cs) == EncodeChunk(c) + EncodeChunks(rest)
  {
    assert cs[1..] == rest;
  }

  lemma NoChunks()
    ensures EncodeChunks([]) == []
  {
  }

  lemma ChunksInARow(first: Chunk, second: Chunk, third: Chunk)
    requires Encodable(first) && Encodable(second) && Encodable(third)
    ensures EncodeChunks([first, second, third]) == EncodeChunk(first) + (EncodeChunk(second) + EncodeChunk(third))
  {
    hide EncodeChunk, EncodeChunks, Encodable;
    ChunksNext([third], third, []);
    NoChunks();
    AppendNothing(EncodeChunk(third));
    ChunksNext([second, third], second, [third]);
    ChunksNext([first, second, third], first, [second, third]);
  }

  lemma Pieces<T>(f: seq<T>, s: seq<T>, a: seq<T>, b: seq<T>, c: seq<T>)
    requires f == s + (a + (b + c))
    ensures f[..|s|] == s && f[|s|..] == a + (b + c) && f[|s| + |a|..] == b + c && f[|s| + |a| + |b|..] == c
  {
  }

  lemma HeaderInside(s: seq<Byte>, first: seq<Byte>, rest: seq<Byte>, kind: seq<Byte>, header: seq<Byte>)
    requires s == first + rest && |header| == 13 && ChunkAt(s, kind, header)
    ensures |s| >= 25 && s[8..21] == header
  {
    hide Stands, StandsForWord, Crc32.Crc;
  }

  /** Byte k of scan line y is the filter type 0 in front, and then the row's samples in order. */
  lemma {:induction false} ScanlineBytes(rgba: seq<Byte>, stride: nat, height: nat, y: nat, k: nat)
    requires y < height && k <= stride && height * stride <= |rgba|
    ensures 0 <= y * (stride + 1) + k < |Scanlines(rgba, stride, height)|
    ensures k > 0 ==> 0 <= y * stride + k - 1 < |rgba|
    ensures Scanlines(rgba, stride, height)[y * (stride + 1) + k] == if k == 0 then 0 else rgba[y * stride + k - 1]
  {
    var above, last := Scanlines(rgba, stride, height - 1), Row(rgba, stride, height - 1);
    InLine(y, height, stride, k);
    if y < height - 1 {
      ShorterBy(height, stride);
      ScanlineBytes(rgba, stride, height - 1, y, k);
    } else {
      assert Scanlines(rgba, stride, height) == above + [0] + last;
      assert |above| == y * (stride + 1);
    }
  }

  lemma ShorterBy(height: nat, stride: nat)
    requires height > 0
    ensures (height - 1) * stride + stride == height * stride
  {
  }

  lemma InLine(y: nat, height: nat, stride: nat, k: nat)
    requires y < height && k <= stride
    ensures 0 <= y * (stride + 1) + k < LineStart(height, stride + 1)
    ensures 0 <= y * stride && y * stride + stride <= height * stride
  {
    NextLine(y, stride + 1, height);
    NextLine(y, stride, height);
  }

  /** The inspector answers exactly for data that starts like such a file, with a size that is not zero; it checks no
      more than 24 bytes. */
  lemma InspectorAnswers(data: seq<Byte>, size: Dimensions)
    ensures PngDimensions(data) == Some(size) <==>
              && |data| >= 24 && data[..8] == [137, 80, 78, 71, 13, 10, 26, 10] && data[12..16] == [73, 72, 68, 82]
              && Stands(data[16..20], size.widthPx) && Stands(data[20..24], size.heightPx) && size.widthPx > 0 && size.heightPx > 0
  {
    if |data| >= 24 {
      ReadStands(data[16..], size.widthPx);
      ReadStands(data[20..], size.heightPx);
      assert data[16..][..4] == data[16..20] && data[20..][..4] == data[20..24];
    }
    hide ReadBe32, Stands;
  }

  lemma ReadStands(s: seq<Byte>, n: nat)
    requires |s| >= 4
    ensures ReadBe32(s) == n <==> Stands(s[..4], n)
  {
    hide Value;
  }
}
