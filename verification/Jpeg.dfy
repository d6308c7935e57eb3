/**
 The JPEG header reader (src/mockups/file-inspector.ts:33,35), which scans markers in untrusted bytes.
 Names of markers follow ITU-T T.81, section B.1.1.
 */
module Jpeg {
  import opened Bytes

  const FRAME_MARKERS: set<Byte> :=
    {0xc0, 0xc1, 0xc2, 0xc3, 0xc5, 0xc6, 0xc7, 0xc9, 0xca, 0xcb, 0xcd, 0xce, 0xcf}

  predicate IsEnd(m: Byte) { m == 0xd9 || m == 0xda }
  predicate IsStandalone(m: Byte) { m == 0x01 || 0xd0 <= m <= 0xd7 }
  predicate IsFrame(m: Byte) { m in FRAME_MARKERS }

  /** What the reader steps over. */
  datatype Element = Junk(b: Byte) | Standalone(marker: Byte) | Segment(marker: Byte, high: Byte, low: Byte, payload: seq<Byte>)

  predicate ValidElement(e: Element) {
    match e
    case Junk(b) => b != 0xff
    case Standalone(m) => IsStandalone(m)
    case Segment(m, high, low, payload) =>
      !IsEnd(m) && !IsStandalone(m) && !IsFrame(m) && U16(high, low) == |payload| + 2
  }

  function Encode(e: Element): seq<Byte> {
    match e
    case Junk(b) => [b]
    case Standalone(m) => [0xff, m]
    case Segment(m, high, low, payload) => [0xff, m, high, low] + payload
  }

  function EncodeAll(es: seq<Element>): seq<Byte> {
    if es == [] then [] else Encode(es[0]) + EncodeAll(es[1..])
  }

  predicate Valid(es: seq<Element>) { forall e :: e in es ==> ValidElement(e) }

  /** s starts with a frame header whose segment is all there: length, precision, lines, samples per line. */
  predicate StartsWithFrame(s: seq<Byte>) {
    && |s| > 8 && s[0] == 0xff && IsFrame(s[1])
    && 2 <= U16(s[2], s[3]) && 2 + U16(s[2], s[3]) <= |s|
  }

  function FrameSize(s: seq<Byte>): Option<Dimensions>
    requires |s| > 8
  {
    var height, width := U16(s[5], s[6]), U16(s[7], s[8]);
    if width != 0 && height != 0 then Some(Dimensions(width, height)) else None
  }

  const SOI: seq<Byte> := [0xff, 0xd8]

  /** The first frame header of data is `frame`, behind elements that the reader steps over. */
  ghost predicate FirstFrame(data: seq<Byte>, es: seq<Element>, frame: seq<Byte>) {
    data == SOI + EncodeAll(es) + frame && Valid(es) && StartsWithFrame(frame)
  }

  // ---- the reader ----

  function Scan(s: seq<Byte>): Option<Dimensions> {
    if |s| <= 8 then None
    else if s[0] != 0xff then Scan(s[1..])
    else if IsEnd(s[1]) then None
    else if IsStandalone(s[1]) then Scan(s[2..])
    else if U16(s[2], s[3]) < 2 || 2 + U16(s[2], s[3]) > |s| then None
    else if IsFrame(s[1]) then FrameSize(s)
    else Scan(s[2 + U16(s[2], s[3])..])
  }

  function JpegDimensions(data: seq<Byte>): Option<Dimensions> {
    if |data| < 4 || data[0] != 0xff || data[1] != 0xd8 then None else Scan(data[2..])
  }

  /** The loop of the source: it ends, and never reads outside the data. */
  method ReadJpeg(data: seq<Byte>) returns (r: Option<Dimensions>)
    ensures r == JpegDimensions(data)
  {
    hide U16;
    if |data| < 4 || data[0] != 0xff || data[1] != 0xd8 { return None; }
    var i := 2;
    while i + 8 < |data|
      invariant 2 <= i <= |data| && JpegDimensions(data) == Scan(data[i..])
      decreases |data| - i
    {
      ghost var s := data[i..];
      if data[i] != 0xff {
        assert s[1..] == data[i + 1..];
        i := i + 1;
        continue;
      }
      var marker := data[i + 1];
      if marker == 0xd9 || marker == 0xda { break; }
      if marker == 0x01 || 0xd0 <= marker <= 0xd7 {
        assert s[2..] == data[i + 2..];
        i := i + 2;
        continue;
      }
      var length := U16(data[i + 2], data[i + 3]);
      if length < 2 || i + 2 + length > |data| { break; }
      if marker in FRAME_MARKERS {
        var heightPx, widthPx := U16(data[i + 5], data[i + 6]), U16(data[i + 7], data[i + 8]);
        return if widthPx != 0 && heightPx != 0 then Some(Dimensions(widthPx, heightPx)) else None;
      }
      assert s[2 + length..] == data[i + 2 + length..];
      i := i + 2 + length;
    }
    return None;
  }

  // ---- which inputs have an answer ----

  lemma ScanElement(e: Element, rest: seq<Byte>)
    requires ValidElement(e) && |rest| > 8
    ensures Scan(Encode(e) + rest) == Scan(rest)
  {
    hide U16;
    var s := Encode(e) + rest;
    match e
    case Junk(b) => assert s[1..] == rest;
    case Standalone(m) => assert s[2..] == rest;
    case Segment(m, high, low, payload) => assert s[2 + U16(high, low)..] == rest;
  }

  /** The reader finds the frame behind any elements. */
  lemma {:induction false} ScanFinds(es: seq<Element>, frame: seq<Byte>)
    requires Valid(es) && StartsWithFrame(frame)
    ensures Scan(EncodeAll(es) + frame) == FrameSize(frame)
  {
    hide U16, FrameSize;
    if es == [] {
      assert EncodeAll(es) + frame == frame;
      StartIsFrame(frame);
    } else {
      var rest := EncodeAll(es[1..]) + frame;
      assert EncodeAll(es) + frame == Encode(es[0]) + rest;
      ScanElement(es[0], rest);
      ScanFinds(es[1..], frame);
    }
  }

  lemma StartIsFrame(frame: seq<Byte>)
    requires StartsWithFrame(frame)
    ensures Scan(frame) == FrameSize(frame)
  {
    hide U16, FrameSize;
    FrameIsNothingElse(frame[1]);
  }

  lemma FrameIsNothingElse(m: Byte)
    requires IsFrame(m)
    ensures !IsEnd(m) && !IsStandalone(m)
  {
  }

  lemma {:induction false} ScanSound(s: seq<Byte>) returns (es: seq<Element>, frame: seq<Byte>)
    requires Scan(s).Some?
    ensures s == EncodeAll(es) + frame && Valid(es) && StartsWithFrame(frame) && FrameSize(frame) == Scan(s)
    decreases |s|, 0
  {
    hide U16, FrameSize, IsEnd, IsStandalone, IsFrame;
    if s[0] != 0xff {
      es, frame := ScanSoundStep(s, Junk(s[0]), s[1..]);
    } else if IsStandalone(s[1]) {
      es, frame := ScanSoundStep(s, Standalone(s[1]), s[2..]);
    } else if IsFrame(s[1]) {
      es, frame := [], s;
    } else {
      var n := 2 + U16(s[2], s[3]);
      es, frame := ScanSoundStep(s, Segment(s[1], s[2], s[3], s[4..n]), s[n..]);
    }
  }

  lemma {:induction false} ScanSoundStep(s: seq<Byte>, e: Element, rest: seq<Byte>) returns (es: seq<Element>, frame: seq<Byte>)
    requires ValidElement(e) && s == Encode(e) + rest && |rest| < |s| && Scan(rest).Some? && Scan(s) == Scan(rest)
    ensures s == EncodeAll(es) + frame && Valid(es) && StartsWithFrame(frame) && FrameSize(frame) == Scan(s)
    decreases |rest|, 1
  {
    hide U16, FrameSize, Scan, StartsWithFrame;
    var tail;
    tail, frame := ScanSound(rest);
    es := [e] + tail;
    assert es[1..] == tail;
  }

  /** There is an answer exactly when the data is SOI, elements the reader steps over, and a frame header of that size. */
  lemma AnswersFrameSize(data: seq<Byte>, size: Dimensions)
    ensures JpegDimensions(data) == Some(size)
       <==> exists es, frame :: FirstFrame(data, es, frame) && FrameSize(frame) == Some(size)
  {
    if JpegDimensions(data) == Some(size) {
      var es, frame := ScanSound(data[2..]);
      hide *;
      SoiInFront(data, es, frame);
    }
    if es, frame :| FirstFrame(data, es, frame) && FrameSize(frame) == Some(size) {
      hide FrameSize;
      FirstFrameAnswers(data, es, frame);
    }
  }

  lemma SoiInFront(data: seq<Byte>, es: seq<Element>, frame: seq<Byte>)
    requires |data| >= 2 && data[..2] == SOI && data[2..] == EncodeAll(es) + frame && Valid(es) && StartsWithFrame(frame)
    ensures FirstFrame(data, es, frame)
  {
    hide EncodeAll, Valid, StartsWithFrame;
    assert data == data[..2] + data[2..];
  }

  /** Whatever stands between SOI and the first frame header, the reader answers with that frame's size. */
  lemma FirstFrameAnswers(data: seq<Byte>, es: seq<Element>, frame: seq<Byte>)
    requires FirstFrame(data, es, frame)
    ensures JpegDimensions(data) == FrameSize(frame)
  {
    hide FrameSize, Scan, EncodeAll, Valid;
    assert data[2..] == EncodeAll(es) + frame;
    ScanFinds(es, frame);
  }

  // ---- the same, for streams written from their numbers as section B.2.2 of T.81 lays them out ----

  /** Two bytes, the more significant first. */
  function BigEndian(n: nat): (s: seq<Byte>)
    requires n < 0x1_0000
    ensures |s| == 2 && Value(s[0]) == n / 256 && Value(s[1]) == n % 256
  {
    [ByteOf(n / 256), ByteOf(n % 256)]
  }

  /** SOF0 to SOF15, of which C4, C8 and CC are other markers (Table B.1). */
  predicate StartOfFrame(m: Byte) { 0xc0 <= m <= 0xcf && m != 0xc4 && m != 0xc8 && m != 0xcc }

  /** TEM and RST0 to RST7 stand alone. */
  predicate Alone(m: Byte) { m == 0x01 || (0xd0 <= m && m <= 0xd7) }

  /** A byte that is no marker, a marker that stands alone, or a marker segment with its length in front. */
  datatype Part = Stray(b: Byte) | Lone(marker: Byte) | WithLength(marker: Byte, parameters: seq<Byte>)

  predicate Skippable(p: Part) {
    match p
    case Stray(b) => b != 0xff
    case Lone(m) => Alone(m)
    case WithLength(m, parameters) =>
      m != 0xd9 && m != 0xda && !Alone(m) && !StartOfFrame(m) && |parameters| + 2 < 0x1_0000
  }

  function Write(p: Part): seq<Byte>
    requires Skippable(p)
  {
    match p
    case Stray(b) => [b]
    case Lone(m) => [0xff, m]
    case WithLength(m, parameters) => [0xff, m] + BigEndian(|parameters| + 2) + parameters
  }

  function WriteAll(parts: seq<Part>): seq<Byte>
    requires forall p :: p in parts ==> Skippable(p)
  {
    if parts == [] then [] else Write(parts[0]) + WriteAll(parts[1..])
  }

  /** A frame header up to its components: marker, length, sample precision, number of lines, samples per line. */
  function FrameHeader(m: Byte, length: nat, precision: Byte, lines: nat, samples: nat): (s: seq<Byte>)
    requires length < 0x1_0000 && lines < 0x1_0000 && samples < 0x1_0000
    ensures |s| == 9
  {
    [0xff, m] + BigEndian(length) + [precision] + BigEndian(lines) + BigEndian(samples)
  }

  lemma BigEndianRead(n: nat)
    requires n < 0x1_0000
    ensures U16(BigEndian(n)[0], BigEndian(n)[1]) == n
  {
  }

  lemma SameBytes(a: Byte, b: Byte)
    requires Value(a) == Value(b)
    ensures a == b
  {
    ByteOfValue(a);
    ByteOfValue(b);
  }

  lemma HighAndLow(n: int, a: int, b: int)
    requires 0 <= a < 256 && 0 <= b < 256 && n == 256 * a + b
    ensures n / 256 == a && n % 256 == b && 0 <= n < 0x1_0000
  {
  }

  lemma BigEndianWritten(a: Byte, b: Byte)
    ensures [a, b] == BigEndian(U16(a, b))
  {
    HighAndLow(U16(a, b), Value(a), Value(b));
    hide U16;
    var s := BigEndian(U16(a, b));
    hide *;
    SameBytes(a, s[0]);
    SameBytes(b, s[1]);
  }

  lemma FrameMarkers(m: Byte)
    ensures IsFrame(m) <==> StartOfFrame(m)
    ensures IsStandalone(m) <==> Alone(m)
    ensures IsEnd(m) <==> m == 0xd9 || m == 0xda
  {
  }

  function ElementOf(p: Part): Element
    requires Skippable(p)
  {
    match p
    case Stray(b) => Junk(b)
    case Lone(m) => Standalone(m)
    case WithLength(m, parameters) => Segment(m, BigEndian(|parameters| + 2)[0], BigEndian(|parameters| + 2)[1], parameters)
  }

  function PartOf(e: Element): Part {
    match e
    case Junk(b) => Stray(b)
    case Standalone(m) => Lone(m)
    case Segment(m, _, _, payload) => WithLength(m, payload)
  }

  lemma PartIsElement(p: Part)
    requires Skippable(p)
    ensures ValidElement(ElementOf(p)) && Encode(ElementOf(p)) == Write(p)
  {
    if p.WithLength? {
      BigEndianRead(|p.parameters| + 2);
      FrameMarkers(p.marker);
    } else if p.Lone? {
      FrameMarkers(p.marker);
    }
    hide U16, BigEndian, IsFrame, IsStandalone, IsEnd, StartOfFrame, Alone;
  }

  lemma ElementIsPart(e: Element)
    requires ValidElement(e)
    ensures Skippable(PartOf(e)) && Write(PartOf(e)) == Encode(e)
  {
    if e.Segment? {
      BigEndianWritten(e.high, e.low);
      FrameMarkers(e.marker);
    } else if e.Standalone? {
      FrameMarkers(e.marker);
    }
    hide BigEndian, IsFrame, IsStandalone, IsEnd, StartOfFrame, Alone;
  }

  lemma {:induction false} PartsAreElements(parts: seq<Part>) returns (es: seq<Element>)
    requires forall p :: p in parts ==> Skippable(p)
    ensures Valid(es) && EncodeAll(es) == WriteAll(parts)
  {
    hide ValidElement, Encode, Write, Skippable;
    if parts == [] {
      es := [];
    } else {
      PartIsElement(parts[0]);
      var rest := PartsAreElements(parts[1..]);
      es := [ElementOf(parts[0])] + rest;
      assert es[1..] == rest;
    }
  }

  lemma {:induction false} ElementsAreParts(es: seq<Element>) returns (parts: seq<Part>)
    requires Valid(es)
    ensures (forall p :: p in parts ==> Skippable(p)) && WriteAll(parts) == EncodeAll(es)
  {
    hide ValidElement, Encode, Write, Skippable;
    if es == [] {
      parts := [];
    } else {
      ElementIsPart(es[0]);
      var rest := ElementsAreParts(es[1..]);
      parts := [PartOf(es[0])] + rest;
      assert parts[1..] == rest;
    }
  }

  /** The frame header's bytes, one by one. */
  lemma HeaderBytes(m: Byte, length: nat, precision: Byte, lines: nat, samples: nat)
    requires length < 0x1_0000 && lines < 0x1_0000 && samples < 0x1_0000
    ensures var s := FrameHeader(m, length, precision, lines, samples);
            s[0] == 0xff && s[1] == m && U16(s[2], s[3]) == length && U16(s[5], s[6]) == lines && U16(s[7], s[8]) == samples
  {
    BigEndianRead(length);
    BigEndianRead(lines);
    BigEndianRead(samples);
    hide U16, BigEndian;
    var l, y, x := BigEndian(length), BigEndian(lines), BigEndian(samples);
    var s := FrameHeader(m, length, precision, lines, samples);
    assert s[2] == l[0] && s[3] == l[1] && s[5] == y[0] && s[6] == y[1] && s[7] == x[0] && s[8] == x[1];
  }

  lemma HeaderIsFrame(m: Byte, length: nat, precision: Byte, lines: nat, samples: nat, tail: seq<Byte>)
    requires StartOfFrame(m) && 2 <= length < 0x1_0000 && length <= 7 + |tail|
    requires 1 <= lines < 0x1_0000 && 1 <= samples < 0x1_0000
    ensures var frame := FrameHeader(m, length, precision, lines, samples) + tail;
            StartsWithFrame(frame) && FrameSize(frame) == Some(Dimensions(samples, lines))
  {
    HeaderBytes(m, length, precision, lines, samples);
    FrameMarkers(m);
    hide U16, FrameHeader, IsFrame, StartOfFrame;
  }

  lemma FirstNine<T>(s: seq<T>)
    requires |s| > 8
    ensures s == [s[0], s[1], s[2], s[3], s[4], s[5], s[6], s[7], s[8]] + s[9..]
  {
  }

  lemma NineBytes(a: Byte, b: Byte, c: Byte, d: Byte, e: Byte, f: Byte, g: Byte, h: Byte)
    ensures FrameHeader(a, U16(b, c), d, U16(e, f), U16(g, h)) == [0xff, a, b, c, d, e, f, g, h]
  {
    BigEndianWritten(b, c);
    BigEndianWritten(e, f);
    BigEndianWritten(g, h);
    hide U16, BigEndian;
    assert [0xff, a] + [b, c] + [d] + [e, f] + [g, h] == [0xff, a, b, c, d, e, f, g, h];
  }

  /** A frame header as the reader sees it is one that can be written. */
  lemma FrameIsHeader(frame: seq<Byte>)
    requires StartsWithFrame(frame)
    ensures StartOfFrame(frame[1])
    ensures frame == FrameHeader(frame[1], U16(frame[2], frame[3]), frame[4], U16(frame[5], frame[6]), U16(frame[7], frame[8])) + frame[9..]
  {
    FrameMarkers(frame[1]);
    NineBytes(frame[1], frame[2], frame[3], frame[4], frame[5], frame[6], frame[7], frame[8]);
    hide *;
    FirstNine(frame);
  }

  /** The stream: SOI, parts, a frame header and as many bytes behind it as its length says at least. */
  ghost predicate IsStream(data: seq<Byte>, parts: seq<Part>, m: Byte, length: nat, precision: Byte, lines: nat, samples: nat, tail: seq<Byte>) {
    && (forall p :: p in parts ==> Skippable(p)) && StartOfFrame(m) && 1 <= lines < 0x1_0000 && 1 <= samples < 0x1_0000
    && 2 <= length < 0x1_0000 && length <= 7 + |tail|
    && data == [0xff, 0xd8] + WriteAll(parts) + (FrameHeader(m, length, precision, lines, samples) + tail)
  }

  /** A stream is answered with its samples per line as the width and its number of lines as the height. */
  lemma StreamIsRead(data: seq<Byte>, parts: seq<Part>, m: Byte, length: nat, precision: Byte, lines: nat, samples: nat, tail: seq<Byte>)
    requires IsStream(data, parts, m, length, precision, lines, samples, tail)
    ensures JpegDimensions(data) == Some(Dimensions(samples, lines))
  {
    var es := PartsAreElements(parts);
    HeaderIsFrame(m, length, precision, lines, samples, tail);
    hide JpegDimensions, FrameSize, StartsWithFrame, EncodeAll, WriteAll, FrameHeader, Valid;
    FirstFrameAnswers(data, es, FrameHeader(m, length, precision, lines, samples) + tail);
  }

  lemma Regroup<T>(a: seq<T>, m: seq<T>, l: seq<T>, p: seq<T>, y: seq<T>, x: seq<T>, c: seq<T>, r: seq<T>)
    ensures a + m + l + p + y + x + c + r == a + ((m + l + p + y + x) + (c + r))
  {
  }

  /** Written as section B.2.2 of T.81 says, the length being that of the header with its components: 1 to 65535 lines
      of 1 to 65535 samples are answered as such, whatever parts stand in front and whatever follows. */
  lemma ReadsT81(parts: seq<Part>, m: Byte, precision: Byte, lines: nat, samples: nat, components: seq<Byte>, rest: seq<Byte>)
    requires forall p :: p in parts ==> Skippable(p)
    requires StartOfFrame(m) && 1 <= lines < 0x1_0000 && 1 <= samples < 0x1_0000 && |components| + 7 < 0x1_0000
    ensures JpegDimensions([0xff, 0xd8] + WriteAll(parts)
              + [0xff, m] + BigEndian(|components| + 7) + [precision] + BigEndian(lines) + BigEndian(samples) + components + rest)
            == Some(Dimensions(samples, lines))
  {
    var length := |components| + 7;
    var data := [0xff, 0xd8] + WriteAll(parts)
      + [0xff, m] + BigEndian(length) + [precision] + BigEndian(lines) + BigEndian(samples) + components + rest;
    var header := FrameHeader(m, length, precision, lines, samples);
    Regroup([0xff, 0xd8] + WriteAll(parts), [0xff, m], BigEndian(length), [precision], BigEndian(lines), BigEndian(samples),
            components, rest);
    hide BigEndian, WriteAll, Skippable, JpegDimensions, StartOfFrame;
    assert data == [0xff, 0xd8] + WriteAll(parts) + (header + (components + rest));
    StreamIsRead(data, parts, m, length, precision, lines, samples, components + rest);
  }

  /** And there is an answer only for such a stream: its samples per line and its number of lines. A length that does
      not even cover its own header is read all the same. */
  lemma AnswersTheFirstFrame(data: seq<Byte>, size: Dimensions)
    ensures JpegDimensions(data) == Some(size) <==>
              exists parts, m, length, precision, tail :: IsStream(data, parts, m, length, precision, size.heightPx, size.widthPx, tail)
  {
    AnswersFrameSize(data, size);
    if JpegDimensions(data) == Some(size) {
      var es, frame :| FirstFrame(data, es, frame) && FrameSize(frame) == Some(size);
      FirstFrameIsStream(data, es, frame, size);
    }
    if parts, m, length, precision, tail :| IsStream(data, parts, m, length, precision, size.heightPx, size.widthPx, tail) {
      StreamIsRead(data, parts, m, length, precision, size.heightPx, size.widthPx, tail);
    }
  }

  lemma FirstFrameIsStream(data: seq<Byte>, es: seq<Element>, frame: seq<Byte>, size: Dimensions)
    requires FirstFrame(data, es, frame) && FrameSize(frame) == Some(size)
    ensures exists parts, m, length, precision, tail :: IsStream(data, parts, m, length, precision, size.heightPx, size.widthPx, tail)
  {
    var parts := ElementsAreParts(es);
    FrameIsHeader(frame);
    hide JpegDimensions, EncodeAll, WriteAll, FrameHeader, StartOfFrame, Valid, U16;
    assert IsStream(data, parts, frame[1], U16(frame[2], frame[3]), frame[4], size.heightPx, size.widthPx, frame[9..]);
  }

  lemma {:induction false} ScanExtends(s: seq<Byte>, more: seq<Byte>)
    requires Scan(s).Some?
    ensures Scan(s + more) == Scan(s)
  {
    hide U16;
    var es, frame := ScanSound(s);
    assert s + more == EncodeAll(es) + (frame + more);
    assert StartsWithFrame(frame + more) && FrameSize(frame + more) == FrameSize(frame);
    ScanFinds(es, frame + more);
  }

  /** An answer on a prefix is the answer on every extension. */
  lemma AnswerIsStable(data: seq<Byte>, more: seq<Byte>)
    requires JpegDimensions(data).Some?
    ensures JpegDimensions(data + more) == JpegDimensions(data)
  {
    hide Scan;
    assert (data + more)[2..] == data[2..] + more;
    ScanExtends(data[2..], more);
  }
}
