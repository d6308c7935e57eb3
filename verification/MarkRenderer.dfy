/** Rendering the mark to a PNG file (src/brand/mark-renderer.ts:207-228). */
module MarkRenderer {
  import opened Bytes
  import opened Raster
  import Crc32
  import MarkDistance
  import MarkSymmetry
  import Png

  datatype Rgb = Rgb(r: Byte, g: Byte, b: Byte)
  datatype Rendering = Rendering(png: seq<Byte>, widthPx: nat, heightPx: nat)

  const MAX_SAFE_INTEGER := 9007199254740991

  predicate Drawable(g: Geometry) { g.viewBoxWidth > 0.0 && g.viewBoxHeight >= 0.0 }

  /** The alpha byte of pixel k, counted row by row. */
  function Alpha(sqrt: real -> real, g: Geometry, widthPx: nat, k: nat): (a: Byte)
    requires widthPx > 0 && Drawable(g)
    ensures Value(a) == MarkCoverage(sqrt, g, widthPx, k % widthPx, k / widthPx)
  {
    CoverageIsMax(sqrt, Pieces(sqrt, g.segments, Scale(g, widthPx)), Radius(g, widthPx), k % widthPx, k / widthPx);
    ByteOf(MarkCoverage(sqrt, g, widthPx, k % widthPx, k / widthPx))
  }

  /** The first n pixels, four bytes each. */
  function Painted(sqrt: real -> real, g: Geometry, color: Rgb, widthPx: nat, n: nat): (s: seq<Byte>)
    requires widthPx > 0 && Drawable(g)
    ensures |s| == 4 * n
  {
    if n == 0 then [] else Painted(sqrt, g, color, widthPx, n - 1) + [color.r, color.g, color.b, Alpha(sqrt, g, widthPx, n - 1)]
  }

  lemma EarlierPixel(before: seq<Byte>, last: seq<Byte>, n: nat, k: nat)
    requires |before| == 4 * n && k < n
    ensures (before + last)[4 * k..4 * k + 4] == before[4 * k..4 * k + 4]
  {
  }

  lemma LastPixel(before: seq<Byte>, last: seq<Byte>, n: nat)
    requires |before| == 4 * n && |last| == 4
    ensures (before + last)[4 * n..4 * n + 4] == last
  {
  }

  lemma {:induction false} PaintedPixel(sqrt: real -> real, g: Geometry, color: Rgb, widthPx: nat, n: nat, k: nat)
    requires widthPx > 0 && Drawable(g) && k < n
    ensures Painted(sqrt, g, color, widthPx, n)[4 * k..4 * k + 4] == [color.r, color.g, color.b, Alpha(sqrt, g, widthPx, k)]
  {
    hide Alpha, Drawable;
    var before := Painted(sqrt, g, color, widthPx, n - 1);
    var last := [color.r, color.g, color.b, Alpha(sqrt, g, widthPx, n - 1)];
    assert Painted(sqrt, g, color, widthPx, n) == before + last;
    hide *;
    if k < n - 1 {
      PaintedPixel(sqrt, g, color, widthPx, n - 1, k);
      EarlierPixel(before, last, n - 1, k);
    } else {
      LastPixel(before, last, n - 1);
    }
  }

  /** The height in the geometry's proportion, before rounding. */
  function ExactHeight(g: Geometry, widthPx: nat): (h: real)
    requires Drawable(g)
    ensures 0.0 <= h && h * g.viewBoxWidth == widthPx as real * g.viewBoxHeight
  {
    ProductNonNegative(widthPx as real, g.viewBoxHeight);
    Quotient(widthPx as real * g.viewBoxHeight, g.viewBoxWidth);
    widthPx as real * g.viewBoxHeight / g.viewBoxWidth
  }

  lemma Quotient(a: real, b: real)
    requires 0.0 <= a && 0.0 < b
    ensures 0.0 <= a / b && (a / b) * b == a
  {
  }

  function Height(g: Geometry, widthPx: nat): nat
    requires Drawable(g)
  {
    Round(ExactHeight(g, widthPx))
  }

  /** What the source returns; nothing where it throws. */
  function Render(sqrt: real -> real, deflate: seq<Byte> -> seq<Byte>, g: Geometry, color: Rgb, width: real): Option<Rendering>
    requires Drawable(g)
  {
    var widthPx := Round(width);
    if widthPx <= 0 || widthPx > MAX_SAFE_INTEGER then None
    else
      var heightPx := Height(g, widthPx);
      var png := Png.EncodePng(deflate, Painted(sqrt, g, color, widthPx, widthPx * heightPx), widthPx, heightPx);
      if png.None? then None else Some(Rendering(png.value, widthPx, heightPx))
  }

  /** Writes pixel i at its offset. */
  method ColourPixel(rgba: array<Byte>, i: nat, color: Rgb, alpha: Byte)
    requires 4 * i + 4 <= rgba.Length
    modifies rgba
    ensures rgba[..4 * i + 4] == old(rgba[..4 * i]) + [color.r, color.g, color.b, alpha]
  {
    var offset := i * 4;
    rgba[offset], rgba[offset + 1], rgba[offset + 2] := color.r, color.g, color.b;
    rgba[offset + 3] := alpha;
  }

  /** Colours every pixel, with the coverage as alpha. */
  method Colour(sqrt: real -> real, g: Geometry, color: Rgb, widthPx: nat, coverage: array<int>) returns (rgba: array<Byte>)
    requires widthPx > 0 && Drawable(g)
    requires forall k: nat :: k < coverage.Length ==> coverage[k] == MarkCoverage(sqrt, g, widthPx, k % widthPx, k / widthPx)
    requires forall k :: 0 <= k < coverage.Length ==> 0 <= coverage[k] <= 255
    ensures fresh(rgba) && rgba[..] == Painted(sqrt, g, color, widthPx, coverage.Length)
  {
    hide MarkCoverage, Drawable;
    rgba := new Byte[coverage.Length * 4](_ => 0);
    var i := 0;
    while i < coverage.Length
      invariant 0 <= i <= coverage.Length && rgba[..4 * i] == Painted(sqrt, g, color, widthPx, i)
    {
      SameByte(ByteOf(coverage[i]), Alpha(sqrt, g, widthPx, i));
      ColourPixel(rgba, i, color, ByteOf(coverage[i]));
      i := i + 1;
    }
  }

  lemma SameByte(a: Byte, b: Byte)
    requires Value(a) == Value(b)
    ensures a == b
  {
    ByteOfValue(a);
    ByteOfValue(b);
  }

  method RenderMarkPng(sqrt: real -> real, deflate: seq<Byte> -> seq<Byte>, table: array<Crc32.Word>, g: Geometry, color: Rgb, width: real)
    returns (r: Option<Rendering>)
    requires IsSqrt(sqrt) && Crc32.IsTable(table[..]) && Drawable(g)
    ensures r == Render(sqrt, deflate, g, color, width)
  {
    hide IsSqrt, Crc32.IsTable, MarkCoverage, Painted, Png.EncodePng, Height;
    var widthPx := Round(width);
    if widthPx <= 0 || widthPx > MAX_SAFE_INTEGER { return None; }
    var heightPx := Height(g, widthPx);
    ghost var entries := table[..];
    var coverage := RasterizeCoverage(sqrt, g, widthPx, heightPx);
    var rgba := Colour(sqrt, g, color, widthPx, coverage);
    assert table[..] == entries;
    var png := Png.EncodeRgbaPng(table, deflate, rgba[..], widthPx, heightPx);
    r := if png.None? then None else Some(Rendering(png.value, widthPx, heightPx));
  }

  /** Decoding a rendered file gives the painted pixels: the colour everywhere, the coverage as alpha. */
  lemma RenderedPixels(sqrt: real -> real, deflate: seq<Byte> -> seq<Byte>, inflate: seq<Byte> -> seq<Byte>,
                       g: Geometry, color: Rgb, width: real)
    requires Drawable(g) && Png.Inverse(inflate, deflate) && Render(sqrt, deflate, g, color, width).Some?
    ensures var f := Render(sqrt, deflate, g, color, width).value;
            && f.widthPx > 0
            && Png.DecodePng(inflate, f.png)
               == Some(Png.Image(f.widthPx, f.heightPx, Painted(sqrt, g, color, f.widthPx, f.widthPx * f.heightPx)))
  {
    var f := Render(sqrt, deflate, g, color, width).value;
    var rgba := Painted(sqrt, g, color, f.widthPx, f.widthPx * f.heightPx);
    hide Painted, Png.EncodePng, Png.DecodePng, Png.Inverse;
    Png.PngRoundTrip(deflate, inflate, rgba, f.widthPx, f.heightPx);
  }

  /** Pixel (x, y) of the picture has the colour, and as alpha the shade of its distance from the drawn lines. */
  ghost predicate ShowsMark(image: Png.Image, g: Geometry, color: Rgb, x: int, y: int)
    requires g.viewBoxWidth != 0.0
  {
    var k := y * image.width + x;
    && 0 <= 4 * k && 4 * k + 4 <= |image.rgba|
    && image.rgba[4 * k..4 * k + 3] == [color.r, color.g, color.b]
    && MarkDistance.Shades(Value(image.rgba[4 * k + 3]), Point(x as real + 0.5, y as real + 0.5), g, image.width)
  }

  lemma Shown(image: Png.Image, g: Geometry, color: Rgb, x: int, y: int, a: Byte)
    requires g.viewBoxWidth != 0.0
    requires MarkDistance.Shades(Value(a), Point(x as real + 0.5, y as real + 0.5), g, image.width)
    requires var k := y * image.width + x;
             && 0 <= 4 * k && 4 * k + 4 <= |image.rgba| && image.rgba[4 * k..4 * k + 4] == [color.r, color.g, color.b, a]
    ensures ShowsMark(image, g, color, x, y)
  {
    hide MarkDistance.Shades;
    var k := y * image.width + x;
    var four := image.rgba[4 * k..4 * k + 4];
    assert four[3] == image.rgba[4 * k + 3] && four[..3] == image.rgba[4 * k..4 * k + 3];
  }

  lemma PaintedShows(sqrt: real -> real, g: Geometry, color: Rgb, widthPx: nat, height: nat, x: nat, y: nat)
    requires IsSqrt(sqrt) && Drawable(g) && x < widthPx && y < height
    ensures ShowsMark(Png.Image(widthPx, height, Painted(sqrt, g, color, widthPx, widthPx * height)), g, color, x, y)
  {
    var k := y * widthPx + x;
    InCanvas(widthPx, height, x, y);
    RowColumn(widthPx, x, y);
    hide *;
    MarkDistance.PixelShades(sqrt, g, widthPx, x, y);
    PaintedPixel(sqrt, g, color, widthPx, widthPx * height, k);
    Shown(Png.Image(widthPx, height, Painted(sqrt, g, color, widthPx, widthPx * height)), g, color, x, y, Alpha(sqrt, g, widthPx, k));
  }

  /** n is x rounded to the nearest whole number, half up. */
  predicate IsRounded(n: int, x: real) { n as real - 0.5 <= x < n as real + 0.5 }

  /** Decoding a rendered file gives a picture of the rounded width, with a height in the geometry's proportion, that
      shows the mark in every pixel. */
  lemma RenderedShows(sqrt: real -> real, deflate: seq<Byte> -> seq<Byte>, inflate: seq<Byte> -> seq<Byte>,
                      g: Geometry, color: Rgb, width: real, f: Rendering)
    requires IsSqrt(sqrt) && Drawable(g) && Png.Inverse(inflate, deflate)
    requires Render(sqrt, deflate, g, color, width) == Some(f)
    ensures IsRounded(f.widthPx, width) && InProportion(f.heightPx, f.widthPx, g)
    ensures var image := Png.DecodePng(inflate, f.png);
            && image.Some? && image.value.width == f.widthPx && image.value.height == f.heightPx
            && forall x, y :: 0 <= x < f.widthPx && 0 <= y < f.heightPx ==> ShowsMark(image.value, g, color, x, y)
  {
    RenderedSize(sqrt, deflate, g, color, width, f);
    hide IsSqrt, Png.DecodePng, Png.Inverse, ShowsMark, Render, Painted, IsRounded, InProportion;
    RenderedPixels(sqrt, deflate, inflate, g, color, width);
    forall x: nat, y: nat | x < f.widthPx && y < f.heightPx
      ensures ShowsMark(Png.Image(f.widthPx, f.heightPx, Painted(sqrt, g, color, f.widthPx, f.widthPx * f.heightPx)), g, color, x, y)
    {
      PaintedShows(sqrt, g, color, f.widthPx, f.heightPx, x, y);
    }
  }

  lemma RoundedIsUnique(x: real, n: int)
    ensures IsRounded(n, x) <==> n == Round(x)
  {
  }

  /** h is the height that keeps the geometry's proportion, rounded. */
  ghost predicate InProportion(h: int, widthPx: nat, g: Geometry) {
    exists exact :: exact * g.viewBoxWidth == widthPx as real * g.viewBoxHeight && IsRounded(h, exact)
  }

  lemma SameQuotient(x: real, y: real, b: real)
    requires b != 0.0 && x * b == y * b
    ensures x == y
  {
    assert (x - y) * b == 0.0;
  }

  lemma HeightInProportion(g: Geometry, widthPx: nat, n: int)
    requires Drawable(g)
    ensures InProportion(n, widthPx, g) <==> n == Height(g, widthPx)
  {
    var h := ExactHeight(g, widthPx);
    RoundedIsUnique(h, n);
    hide IsRounded, ExactHeight, Round;
    if InProportion(n, widthPx, g) {
      var exact :| exact * g.viewBoxWidth == widthPx as real * g.viewBoxHeight && IsRounded(n, exact);
      SameQuotient(exact, h, g.viewBoxWidth);
    }
  }

  lemma RenderedSize(sqrt: real -> real, deflate: seq<Byte> -> seq<Byte>, g: Geometry, color: Rgb, width: real, f: Rendering)
    requires Drawable(g) && Render(sqrt, deflate, g, color, width) == Some(f)
    ensures IsRounded(f.widthPx, width) && InProportion(f.heightPx, f.widthPx, g)
  {
    RoundedIsUnique(width, f.widthPx);
    HeightInProportion(g, f.widthPx, f.heightPx);
    hide Png.EncodePng, Painted, Height, Round, IsRounded, InProportion;
  }

  /** The width or the height or the compressed data has a number that a chunk cannot hold. */
  ghost predicate TooLarge(sqrt: real -> real, deflate: seq<Byte> -> seq<Byte>, g: Geometry, color: Rgb, widthPx: nat, heightPx: nat)
    requires Drawable(g) && widthPx > 0
  {
    || widthPx >= 0x1_0000_0000 || heightPx >= 0x1_0000_0000
    || |deflate(Png.Scanlines(Painted(sqrt, g, color, widthPx, widthPx * heightPx), widthPx * 4, heightPx))| >= 0x1_0000_0000
  }

  /** Nothing is rendered exactly when the width rounds to no positive safe integer, or the file cannot hold the picture. */
  lemma RefusedExactly(sqrt: real -> real, deflate: seq<Byte> -> seq<Byte>, g: Geometry, color: Rgb, width: real, widthPx: int, heightPx: int)
    requires Drawable(g) && IsRounded(widthPx, width)
    requires widthPx > 0 ==> InProportion(heightPx, widthPx, g)
    ensures widthPx > 0 ==> heightPx >= 0
    ensures Render(sqrt, deflate, g, color, width).None?
       <==> widthPx <= 0 || widthPx > 9007199254740991 || TooLarge(sqrt, deflate, g, color, widthPx, heightPx)
  {
    RoundedIsUnique(width, widthPx);
    if widthPx > 0 { HeightInProportion(g, widthPx, heightPx); }
    hide Painted, Png.Scanlines, Height, Round, IsRounded, InProportion;
  }

  lemma SymmetricAlpha(sqrt: real -> real, widthPx: nat, x: nat, y: nat)
    requires x < widthPx
    ensures Alpha(sqrt, MarkSymmetry.SEOUL_SIDE_MARK, widthPx, y * widthPx + x)
         == Alpha(sqrt, MarkSymmetry.SEOUL_SIDE_MARK, widthPx, y * widthPx + (widthPx - 1 - x))
  {
    var g := MarkSymmetry.SEOUL_SIDE_MARK;
    RowColumn(widthPx, x, y);
    RowColumn(widthPx, widthPx - 1 - x, y);
    MarkSymmetry.MarkIsSymmetric(sqrt, widthPx, x, y);
    hide MarkCoverage;
    SameByte(Alpha(sqrt, g, widthPx, y * widthPx + x), Alpha(sqrt, g, widthPx, y * widthPx + (widthPx - 1 - x)));
  }

  lemma SamePixels(sqrt: real -> real, g: Geometry, color: Rgb, widthPx: nat, n: nat, j: nat, k: nat)
    requires widthPx > 0 && Drawable(g) && j < n && k < n && Alpha(sqrt, g, widthPx, j) == Alpha(sqrt, g, widthPx, k)
    ensures var rgba := Painted(sqrt, g, color, widthPx, n); rgba[4 * j..4 * j + 4] == rgba[4 * k..4 * k + 4]
  {
    hide Painted, Alpha, Drawable;
    PaintedPixel(sqrt, g, color, widthPx, n, j);
    PaintedPixel(sqrt, g, color, widthPx, n, k);
  }

  lemma PaintedIsSymmetric(sqrt: real -> real, color: Rgb, widthPx: nat, height: nat, x: nat, y: nat)
    requires x < widthPx && y < height
    ensures var rgba := Painted(sqrt, MarkSymmetry.SEOUL_SIDE_MARK, color, widthPx, widthPx * height);
            var k, mirrored := y * widthPx + x, y * widthPx + (widthPx - 1 - x);
            && k < widthPx * height && mirrored < widthPx * height
            && rgba[4 * k..4 * k + 4] == rgba[4 * mirrored..4 * mirrored + 4]
  {
    var g := MarkSymmetry.SEOUL_SIDE_MARK;
    assert Drawable(g);
    InCanvas(widthPx, height, x, y);
    InCanvas(widthPx, height, widthPx - 1 - x, y);
    SymmetricAlpha(sqrt, widthPx, x, y);
    hide *;
    SamePixels(sqrt, g, color, widthPx, widthPx * height, y * widthPx + x, y * widthPx + (widthPx - 1 - x));
  }

  /** Pixel (x, y) of the picture and the one opposite in its row are the same four bytes. */
  predicate SameOpposite(image: Png.Image, x: int, y: int) {
    var k, mirrored := y * image.width + x, y * image.width + (image.width - 1 - x);
    && 0 <= 4 * k && 4 * k + 4 <= |image.rgba| && 0 <= 4 * mirrored && 4 * mirrored + 4 <= |image.rgba|
    && image.rgba[4 * k..4 * k + 4] == image.rgba[4 * mirrored..4 * mirrored + 4]
  }

  ghost predicate LeftRightSymmetric(image: Png.Image) {
    forall x, y :: 0 <= x < image.width && 0 <= y < image.height ==> SameOpposite(image, x, y)
  }

  /** Rendering the Seoul Side mark at any width and decoding the file gives a picture of the stated size that is
      left-right symmetric, pixel for pixel. */
  lemma RenderedMarkIsSymmetric(sqrt: real -> real, deflate: seq<Byte> -> seq<Byte>, inflate: seq<Byte> -> seq<Byte>,
                                color: Rgb, width: real, f: Rendering)
    requires Drawable(MarkSymmetry.SEOUL_SIDE_MARK) && Png.Inverse(inflate, deflate)
    requires Render(sqrt, deflate, MarkSymmetry.SEOUL_SIDE_MARK, color, width) == Some(f)
    ensures var image := Png.DecodePng(inflate, f.png);
            image.Some? && image.value.width == f.widthPx && image.value.height == f.heightPx && LeftRightSymmetric(image.value)
  {
    hide *;
    RenderedPixels(sqrt, deflate, inflate, MarkSymmetry.SEOUL_SIDE_MARK, color, width);
    DecodedIsSymmetric(sqrt, color, Png.DecodePng(inflate, f.png).value);
  }

  lemma DecodedIsSymmetric(sqrt: real -> real, color: Rgb, image: Png.Image)
    requires image.width > 0 && Drawable(MarkSymmetry.SEOUL_SIDE_MARK)
    requires image.rgba == Painted(sqrt, MarkSymmetry.SEOUL_SIDE_MARK, color, image.width, image.width * image.height)
    ensures LeftRightSymmetric(image)
  {
    hide Painted, Drawable, SameOpposite;
    forall x: nat, y: nat | x < image.width && y < image.height ensures SameOpposite(image, x, y) {
      OppositeShown(sqrt, color, image, x, y);
    }
  }

  lemma OppositeShown(sqrt: real -> real, color: Rgb, image: Png.Image, x: nat, y: nat)
    requires Drawable(MarkSymmetry.SEOUL_SIDE_MARK) && x < image.width && y < image.height
    requires image.rgba == Painted(sqrt, MarkSymmetry.SEOUL_SIDE_MARK, color, image.width, image.width * image.height)
    ensures SameOpposite(image, x, y)
  {
    hide *;
    PaintedIsSymmetric(sqrt, color, image.width, image.height, x, y);
    OppositeIs(image, x, y);
  }

  lemma OppositeIs(image: Png.Image, x: nat, y: nat)
    requires x < image.width && y < image.height && |image.rgba| == 4 * (image.width * image.height)
    requires var k, mirrored := y * image.width + x, y * image.width + (image.width - 1 - x);
             && 0 <= k < image.width * image.height && 0 <= mirrored < image.width * image.height
             && image.rgba[4 * k..4 * k + 4] == image.rgba[4 * mirrored..4 * mirrored + 4]
    ensures SameOpposite(image, x, y)
  {
  }
}
