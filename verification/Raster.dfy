/**
 The mark rasteriser (src/brand/mark-renderer.ts) over exact reals. The square root is a
 parameter: any function with `IsSqrt`.
 */
module Raster {

  datatype Point = Point(x: real, y: real)

  datatype Segment = Line(a: Point, b: Point) | Cubic(p0: Point, p1: Point, p2: Point, p3: Point)

  datatype Geometry = Geometry(viewBoxWidth: real, viewBoxHeight: real, strokeWidth: real, segments: seq<Segment>)

  /** One straight piece in device coordinates. */
  datatype Piece = Piece(a: Point, b: Point)

  ghost predicate IsSqrt(sqrt: real -> real) {
    forall v :: 0.0 <= v ==> 0.0 <= sqrt(v) && sqrt(v) * sqrt(v) == v
  }

  function Min(a: real, b: real): real { if a < b then a else b }
  function Max(a: real, b: real): real { if a < b then b else a }
  function MaxInt(a: int, b: int): int { if a < b then b else a }
  function MinInt(a: int, b: int): int { if a < b then a else b }
  function Ceil(x: real): int { -((-x).Floor) }
  function Round(x: real): int { (x + 0.5).Floor }

  function Dot(ux: real, uy: real, vx: real, vy: real): real { ux * vx + uy * vy }
  function Along(a: real, t: real, d: real): real { a + t * d }

  function Distance(sqrt: real -> real, a: Point, b: Point): real {
    var dx, dy := b.x - a.x, b.y - a.y;
    sqrt(Dot(dx, dy, dx, dy))
  }

  // ---- flattening ----

  function Steps(sqrt: real -> real, s: Segment, scale: real): nat
    requires s.Cubic?
  {
    var controlLength := Distance(sqrt, s.p0, s.p1) + Distance(sqrt, s.p1, s.p2) + Distance(sqrt, s.p2, s.p3);
    MaxInt(8, Ceil(controlLength * scale / 2.0))
  }

  /** The four weights of a cubic at t, with u = 1 - t. */
  datatype Weights = Weights(a: real, b: real, c: real, d: real)

  function WeightsAt(t: real, u: real): Weights {
    Weights(u * u * u, 3.0 * u * u * t, 3.0 * u * t * t, t * t * t)
  }

  function Mix(w: Weights, c0: real, c1: real, c2: real, c3: real): real {
    w.a * c0 + w.b * c1 + w.c * c2 + w.d * c3
  }

  function CurvePoint(s: Segment, t: real): Point
    requires s.Cubic?
  {
    var w := WeightsAt(t, 1.0 - t);
    Point(Mix(w, s.p0.x, s.p1.x, s.p2.x, s.p3.x), Mix(w, s.p0.y, s.p1.y, s.p2.y, s.p3.y))
  }

  function Parameter(i: nat, steps: nat): real
    requires steps > 0
  {
    i as real / steps as real
  }

  function Flattened(sqrt: real -> real, s: Segment, scale: real): seq<Point> {
    if s.Line? then [s.a, s.b]
    else
      var steps := Steps(sqrt, s, scale);
      seq(steps + 1, i requires 0 <= i <= steps => CurvePoint(s, Parameter(i, steps)))
  }

  method Flatten(sqrt: real -> real, s: Segment, scale: real) returns (points: seq<Point>)
    ensures points == Flattened(sqrt, s, scale)
  {
    if s.Line? { return [s.a, s.b]; }
    var controlLength := Distance(sqrt, s.p0, s.p1) + Distance(sqrt, s.p1, s.p2) + Distance(sqrt, s.p2, s.p3);
    var steps: nat := MaxInt(8, Ceil(controlLength * scale / 2.0));
    points := [];
    assert steps == Steps(sqrt, s, scale);
    hide Steps, Mix, Distance, WeightsAt, Parameter;
    for i := 0 to steps + 1
      invariant |points| == i && forall j :: 0 <= j < i ==> points[j] == CurvePoint(s, Parameter(j, steps))
    {
      var t := Parameter(i, steps);
      var u := 1.0 - t;
      var w := WeightsAt(t, u);
      points := points + [Point(Mix(w, s.p0.x, s.p1.x, s.p2.x, s.p3.x), Mix(w, s.p0.y, s.p1.y, s.p2.y, s.p3.y))];
    }
    assert points == Flattened(sqrt, s, scale);
  }

  function Scaled(p: Point, scale: real): Point { Point(p.x * scale, p.y * scale) }

  function PiecesOf(points: seq<Point>, scale: real): seq<Piece> {
    if |points| < 2 then []
    else PiecesOf(points[..|points| - 1], scale) + [Piece(Scaled(points[|points| - 2], scale), Scaled(points[|points| - 1], scale))]
  }

  /** Every straight piece of the geometry, in drawing order. */
  function Pieces(sqrt: real -> real, segments: seq<Segment>, scale: real): seq<Piece> {
    if segments == [] then []
    else Pieces(sqrt, segments[..|segments| - 1], scale) + PiecesOf(Flattened(sqrt, segments[|segments| - 1], scale), scale)
  }

  // ---- the plain definition: every pixel, every piece ----

  function Clamp(t: real): real { if t < 0.0 then 0.0 else if t > 1.0 then 1.0 else t }

  /** Where on the piece, from 0 to 1, the point nearest to (px, py) lies. */
  function Projection(p: Piece, px: real, py: real): real {
    var dx, dy := p.b.x - p.a.x, p.b.y - p.a.y;
    var lengthSquared := Dot(dx, dy, dx, dy);
    Clamp(if lengthSquared > 0.0 then Dot(px - p.a.x, py - p.a.y, dx, dy) / lengthSquared else 0.0)
  }

  function DistanceTo(sqrt: real -> real, p: Piece, px: real, py: real): real {
    var t := Projection(p, px, py);
    var ex, ey := px - Along(p.a.x, t, p.b.x - p.a.x), py - Along(p.a.y, t, p.b.y - p.a.y);
    sqrt(Dot(ex, ey, ex, ey))
  }

  function ValueAt(distance: real, radius: real): int {
    var alpha := radius + 0.5 - distance;
    if alpha <= 0.0 then 0 else if alpha >= 1.0 then 255 else Round(alpha * 255.0)
  }

  function PixelValue(sqrt: real -> real, p: Piece, radius: real, x: int, y: int): int {
    ValueAt(DistanceTo(sqrt, p, x as real + 0.5, y as real + 0.5), radius)
  }

  /** The greatest value any piece gives the pixel, 0 if there is none. */
  function Coverage(sqrt: real -> real, pieces: seq<Piece>, radius: real, x: int, y: int): int {
    if pieces == [] then 0
    else MaxInt(Coverage(sqrt, pieces[..|pieces| - 1], radius, x, y), PixelValue(sqrt, pieces[|pieces| - 1], radius, x, y))
  }

  lemma ValueRange(distance: real, radius: real)
    ensures 0 <= ValueAt(distance, radius) <= 255
  {
    var alpha := radius + 0.5 - distance;
    if 0.0 < alpha < 1.0 { assert 0.0 < alpha * 255.0 < 255.0; }
  }

  /** `Coverage` is the maximum: nothing exceeds it, and it is 0 or reached. */
  lemma {:induction false} CoverageIsMax(sqrt: real -> real, pieces: seq<Piece>, radius: real, x: int, y: int)
    ensures 0 <= Coverage(sqrt, pieces, radius, x, y) <= 255
    ensures forall p :: p in pieces ==> PixelValue(sqrt, p, radius, x, y) <= Coverage(sqrt, pieces, radius, x, y)
    ensures Coverage(sqrt, pieces, radius, x, y) == 0
            || exists p :: p in pieces && PixelValue(sqrt, p, radius, x, y) == Coverage(sqrt, pieces, radius, x, y)
  {
    if pieces != [] {
      var n := |pieces| - 1;
      CoverageIsMax(sqrt, pieces[..n], radius, x, y);
      ValueRange(DistanceTo(sqrt, pieces[n], x as real + 0.5, y as real + 0.5), radius);
      assert pieces == pieces[..n] + [pieces[n]];
      assert pieces[n] in pieces && forall p :: p in pieces[..n] ==> p in pieces;
    }
  }

  /** The order, and repetitions, of the pieces do not matter. */
  lemma PieceOrder(sqrt: real -> real, pieces: seq<Piece>, others: seq<Piece>, radius: real, x: int, y: int)
    requires forall p :: p in pieces <==> p in others
    ensures Coverage(sqrt, pieces, radius, x, y) == Coverage(sqrt, others, radius, x, y)
  {
    CoverageIsMax(sqrt, pieces, radius, x, y);
    CoverageIsMax(sqrt, others, radius, x, y);
  }

  // ---- outside the bounding box nothing is painted ----

  lemma Fraction(t: real, d: real)
    requires 0.0 <= t <= 1.0 && 0.0 <= d
    ensures 0.0 <= t * d <= d
  {
    ProductNonNegative(t, d);
    ProductNonNegative(1.0 - t, d);
    assert (1.0 - t) * d == d - t * d;
  }

  lemma ProductNonNegative(a: real, b: real)
    requires 0.0 <= a && 0.0 <= b
    ensures 0.0 <= a * b
  {
  }

  lemma Between(a: real, b: real, t: real)
    requires 0.0 <= t <= 1.0
    ensures Min(a, b) <= Along(a, t, b - a) <= Max(a, b)
  {
    if a <= b {
      Fraction(t, b - a);
    } else {
      Fraction(t, a - b);
      assert t * (b - a) == -(t * (a - b));
    }
  }

  lemma RootAtLeast(sqrt: real -> real, u: real, v: real)
    requires IsSqrt(sqrt)
    ensures var r := sqrt(Dot(u, v, u, v)); u <= r && -u <= r && v <= r && -v <= r
  {
    var r := sqrt(u * u + v * v);
    SquareNonNegative(u);
    SquareNonNegative(v);
    assert 0.0 <= r && r * r == u * u + v * v;
    SquareBound(r, u);
    SquareBound(r, v);
  }

  lemma SquareBound(r: real, u: real)
    requires 0.0 <= r && u * u <= r * r
    ensures u <= r && -u <= r
  {
    if r < u { SquareMonotone(r, u); }
    if r < -u { NegatedSquare(u); SquareMonotone(r, -u); }
  }

  lemma NegatedSquare(u: real)
    ensures (-u) * (-u) == u * u
  {
  }

  lemma SquareNonNegative(u: real)
    ensures 0.0 <= u * u
  {
  }

  lemma SquareMonotone(r: real, u: real)
    requires 0.0 <= r < u
    ensures r * r < u * u
  {
    ProductNonNegative(u - r, r);
    assert 0.0 < (u - r) * u;
    assert u * u - r * r == (u - r) * u + (u - r) * r;
  }

  /** The distance is at least the gap between the pixel and the piece along each axis. */
  lemma DistanceGaps(sqrt: real -> real, p: Piece, px: real, py: real)
    requires IsSqrt(sqrt)
    ensures var d := DistanceTo(sqrt, p, px, py);
            && px - Max(p.a.x, p.b.x) <= d && Min(p.a.x, p.b.x) - px <= d
            && py - Max(p.a.y, p.b.y) <= d && Min(p.a.y, p.b.y) - py <= d
  {
    var t := Projection(p, px, py);
    Between(p.a.x, p.b.x, t);
    Between(p.a.y, p.b.y, t);
    hide Projection, Along, Dot, Min, Max, IsSqrt;
    RootAtLeast(sqrt, px - Along(p.a.x, t, p.b.x - p.a.x), py - Along(p.a.y, t, p.b.y - p.a.y));
  }

  function MinX(p: Piece, radius: real): int { MaxInt(0, (Min(p.a.x, p.b.x) - radius - 1.0).Floor) }
  function MaxX(p: Piece, radius: real, width: int): int { MinInt(width - 1, Ceil(Max(p.a.x, p.b.x) + radius + 1.0)) }
  function MinY(p: Piece, radius: real): int { MaxInt(0, (Min(p.a.y, p.b.y) - radius - 1.0).Floor) }
  function MaxY(p: Piece, radius: real, height: int): int { MinInt(height - 1, Ceil(Max(p.a.y, p.b.y) + radius + 1.0)) }

  predicate OutOfBox(p: Piece, radius: real, width: int, height: int, x: int, y: int) {
    x < MinX(p, radius) || x > MaxX(p, radius, width) || y < MinY(p, radius) || y > MaxY(p, radius, height)
  }

  lemma OutsideBox(sqrt: real -> real, p: Piece, radius: real, width: int, height: int, x: int, y: int)
    requires IsSqrt(sqrt) && 0 <= x < width && 0 <= y < height
    requires OutOfBox(p, radius, width, height, x, y)
    ensures PixelValue(sqrt, p, radius, x, y) == 0
  {
    DistanceGaps(sqrt, p, x as real + 0.5, y as real + 0.5);
    hide DistanceTo;
  }

  // ---- the in-place rasteriser ----

  lemma TimesWhole(n: int, d: nat)
    ensures n >= 0 ==> n * d >= 0
    ensures n >= 1 ==> n * d >= d
    ensures n <= -1 ==> n * d + d <= 0
  {
  }

  lemma DivideUnique(a: nat, d: nat, q: nat, r: nat)
    requires a == q * d + r && r < d
    ensures a / d == q && a % d == r
  {
    var gap := q - a / d;
    assert gap * d == a % d - r;
    TimesWhole(gap, d);
  }

  lemma RowColumn(width: nat, x: nat, y: nat)
    requires x < width
    ensures (y * width + x) / width == y && (y * width + x) % width == x
  {
    DivideUnique(y * width + x, width, y, x);
  }

  lemma InCanvas(width: nat, height: nat, x: nat, y: nat)
    requires x < width && y < height
    ensures y * width + x < width * height
  {
    assert (y + 1) * width <= height * width;
  }

  lemma CanvasRow(width: nat, height: nat, k: nat)
    requires k < width * height
    ensures width > 0 && 0 <= k % width < width && 0 <= k / width < height
    ensures k == (k / width) * width + k % width
  {
    var over := k / width - height;
    assert over * width == (k / width) * width - height * width;
    TimesWhole(over, width);
  }

  /** The pixels before (x, y) in reading order. */
  predicate Before(width: nat, k: nat, x: int, y: int)
    requires width > 0
  {
    k / width < y || (k / width == y && k % width < x)
  }

  /** The array after all pixels before (x, y) have taken the piece into account. */
  ghost predicate PaintedTo(sqrt: real -> real, p: Piece, radius: real, width: nat, was: seq<int>, now: seq<int>, x: int, y: int)
    requires width > 0
  {
    && |now| == |was|
    && forall k: nat :: k < |was| ==>
        now[k] == if Before(width, k, x, y) then MaxInt(was[k], PixelValue(sqrt, p, radius, k % width, k / width)) else was[k]
  }

  /** The only pixel from (x, y) up to (x + 1, y) is (x, y) itself. */
  lemma NextPixel(width: nat, height: nat, k: nat, x: nat, y: nat)
    requires x < width && y < height && k < width * height
    ensures Before(width, k, x + 1, y) <==> Before(width, k, x, y) || k == y * width + x
  {
    CanvasRow(width, height, k);
    RowColumn(width, x, y);
  }

  lemma PaintedNext(sqrt: real -> real, p: Piece, radius: real, width: nat, height: nat, was: seq<int>, now: seq<int>, x: nat, y: nat)
    requires x < width && y < height && |was| == width * height && y * width + x < |was|
    requires PaintedTo(sqrt, p, radius, width, was, now, x, y)
    ensures var k := y * width + x;
            PaintedTo(sqrt, p, radius, width, was, now[k := MaxInt(now[k], PixelValue(sqrt, p, radius, x, y))], x + 1, y)
  {
    hide PixelValue;
    var here := y * width + x;
    RowColumn(width, x, y);
    var next := now[here := MaxInt(now[here], PixelValue(sqrt, p, radius, x, y))];
    forall k: nat | k < |was|
      ensures next[k] == if Before(width, k, x + 1, y) then MaxInt(was[k], PixelValue(sqrt, p, radius, k % width, k / width)) else was[k]
    {
      NextPixel(width, height, k, x, y);
      if k == here { assert !Before(width, k, x, y); }
    }
  }

  /** A row, or the margin of one, in which the piece paints nothing. */
  predicate Blank(sqrt: real -> real, p: Piece, radius: real, width: nat, height: nat, x: int, y: int, x': int, y': int)
    requires width > 0
  {
    forall k: nat :: k < width * height && Before(width, k, x, y) != Before(width, k, x', y') ==>
      PixelValue(sqrt, p, radius, k % width, k / width) == 0
  }

  lemma SkipPixels(sqrt: real -> real, p: Piece, radius: real, width: nat, height: nat, was: seq<int>, now: seq<int>,
                   x: int, y: int, x': int, y': int)
    requires width > 0 && |was| == width * height && PaintedTo(sqrt, p, radius, width, was, now, x, y)
    requires forall k :: 0 <= k < |was| ==> 0 <= was[k]
    requires Blank(sqrt, p, radius, width, height, x, y, x', y')
    ensures PaintedTo(sqrt, p, radius, width, was, now, x', y')
  {
    hide PixelValue;
  }

  /** Left of the box, right of it, above it and below it nothing is painted. */
  lemma BlankMargins(sqrt: real -> real, p: Piece, radius: real, width: nat, height: nat, x: int, y: int)
    requires IsSqrt(sqrt) && width > 0
    ensures Blank(sqrt, p, radius, width, height, 0, 0, 0, MinY(p, radius))
    ensures y > MaxY(p, radius, height) ==> Blank(sqrt, p, radius, width, height, 0, y, 0, height)
    ensures Blank(sqrt, p, radius, width, height, 0, y, MinX(p, radius), y)
    ensures x > MaxX(p, radius, width) ==> Blank(sqrt, p, radius, width, height, x, y, 0, y + 1)
  {
    forall k: nat | k < width * height
      ensures k % width < width && k / width < height
      ensures OutOfBox(p, radius, width, height, k % width, k / width) ==> PixelValue(sqrt, p, radius, k % width, k / width) == 0
    {
      CanvasRow(width, height, k);
      if OutOfBox(p, radius, width, height, k % width, k / width) {
        OutsideBox(sqrt, p, radius, width, height, k % width, k / width);
      }
    }
    hide PixelValue, MinX, MaxX, MinY, MaxY;
  }

  /** Paints one piece, visiting only its clipped bounding box. */
  method PaintPiece(sqrt: real -> real, p: Piece, radius: real, width: nat, height: nat, coverage: array<int>)
    requires IsSqrt(sqrt) && width > 0 && coverage.Length == width * height
    requires forall k :: 0 <= k < coverage.Length ==> 0 <= coverage[k]
    modifies coverage
    ensures PaintedTo(sqrt, p, radius, width, old(coverage[..]), coverage[..], 0, height)
  {
    hide IsSqrt, PaintedTo, Blank, Dot, Along, Round;
    ghost var was := coverage[..];
    var x0, y0, x1, y1 := p.a.x, p.a.y, p.b.x, p.b.y;
    var minX := MaxInt(0, (Min(x0, x1) - radius - 1.0).Floor);
    var maxX := MinInt(width - 1, Ceil(Max(x0, x1) + radius + 1.0));
    var minY := MaxInt(0, (Min(y0, y1) - radius - 1.0).Floor);
    var maxY := MinInt(height - 1, Ceil(Max(y0, y1) + radius + 1.0));
    var dx, dy := x1 - x0, y1 - y0;
    var lengthSquared := Dot(dx, dy, dx, dy);
    var y := minY;
    NothingPainted(sqrt, p, radius, width, was);
    BlankMargins(sqrt, p, radius, width, height, 0, 0);
    SkipPixels(sqrt, p, radius, width, height, was, was, 0, 0, 0, minY);
    while y <= maxY
      invariant minY <= y && PaintedTo(sqrt, p, radius, width, was, coverage[..], 0, y)
    {
      BlankMargins(sqrt, p, radius, width, height, 0, y);
      SkipPixels(sqrt, p, radius, width, height, was, coverage[..], 0, y, minX, y);
      var py := y as real + 0.5;
      var rowOffset := y * width;
      var x := minX;
      while x <= maxX
        invariant minX <= x && PaintedTo(sqrt, p, radius, width, was, coverage[..], x, y)
      {
        var px := x as real + 0.5;
        var t := if lengthSquared > 0.0 then Dot(px - x0, py - y0, dx, dy) / lengthSquared else 0.0;
        if t < 0.0 { t := 0.0; } else if t > 1.0 { t := 1.0; }
        var ex, ey := px - Along(x0, t, dx), py - Along(y0, t, dy);
        var alpha := radius + 0.5 - sqrt(Dot(ex, ey, ex, ey));
        InCanvas(width, height, x, y);
        PaintedNext(sqrt, p, radius, width, height, was, coverage[..], x, y);
        PaintedNonNegative(sqrt, p, radius, width, was, coverage[..], x, y);
        ghost var now := coverage[..];
        var index := rowOffset + x;
        if alpha > 0.0 {
          var value := if alpha >= 1.0 then 255 else Round(alpha * 255.0);
          if value > coverage[index] { coverage[index] := value; }
        }
        assert coverage[..] == now[index := MaxInt(now[index], PixelValue(sqrt, p, radius, x, y))];
        x := x + 1;
      }
      BlankMargins(sqrt, p, radius, width, height, x, y);
      SkipPixels(sqrt, p, radius, width, height, was, coverage[..], x, y, 0, y + 1);
      y := y + 1;
    }
    BlankMargins(sqrt, p, radius, width, height, 0, y);
    SkipPixels(sqrt, p, radius, width, height, was, coverage[..], 0, y, 0, height);
  }

  lemma NothingPainted(sqrt: real -> real, p: Piece, radius: real, width: nat, was: seq<int>)
    requires width > 0
    ensures PaintedTo(sqrt, p, radius, width, was, was, 0, 0)
  {
  }

  lemma PaintedNonNegative(sqrt: real -> real, p: Piece, radius: real, width: nat, was: seq<int>, now: seq<int>, x: int, y: int)
    requires width > 0 && PaintedTo(sqrt, p, radius, width, was, now, x, y)
    requires forall k :: 0 <= k < |was| ==> 0 <= was[k]
    ensures forall k :: 0 <= k < |now| ==> 0 <= now[k]
  {
    hide PixelValue;
  }

  /** Every pixel of the canvas holds the maximum over the pieces. */
  ghost predicate Covers(sqrt: real -> real, pieces: seq<Piece>, radius: real, width: nat, canvas: seq<int>)
    requires width > 0
  {
    forall k: nat :: k < |canvas| ==> canvas[k] == Coverage(sqrt, pieces, radius, k % width, k / width)
  }

  lemma CoversNonNegative(sqrt: real -> real, pieces: seq<Piece>, radius: real, width: nat, canvas: seq<int>)
    requires width > 0 && Covers(sqrt, pieces, radius, width, canvas)
    ensures forall k :: 0 <= k < |canvas| ==> 0 <= canvas[k] <= 255
  {
    forall k: nat | k < |canvas| ensures 0 <= canvas[k] <= 255 {
      CoverageIsMax(sqrt, pieces, radius, k % width, k / width);
    }
  }

  lemma CoversNext(sqrt: real -> real, pieces: seq<Piece>, p: Piece, radius: real, width: nat, height: nat, was: seq<int>, now: seq<int>)
    requires width > 0 && |was| == width * height && Covers(sqrt, pieces, radius, width, was)
    requires PaintedTo(sqrt, p, radius, width, was, now, 0, height)
    ensures Covers(sqrt, pieces + [p], radius, width, now)
  {
    hide PixelValue;
    var more := pieces + [p];
    assert more[..|more| - 1] == pieces;
    forall k: nat | k < |now|
      ensures now[k] == Coverage(sqrt, more, radius, k % width, k / width)
    {
      CanvasRow(width, height, k);
    }
  }

  lemma PiecesOfNext(points: seq<Point>, scale: real, i: nat)
    requires i + 1 < |points|
    ensures PiecesOf(points[..i + 2], scale) == PiecesOf(points[..i + 1], scale) + [Piece(Scaled(points[i], scale), Scaled(points[i + 1], scale))]
  {
    assert points[..i + 2][..i + 1] == points[..i + 1];
  }

  lemma PiecesNext(sqrt: real -> real, segments: seq<Segment>, scale: real, n: nat)
    requires n < |segments|
    ensures Pieces(sqrt, segments[..n + 1], scale)
         == Pieces(sqrt, segments[..n], scale) + PiecesOf(Flattened(sqrt, segments[n], scale), scale)
  {
    assert segments[..n + 1][..n] == segments[..n];
  }

  lemma Joined(a: seq<Piece>, b: seq<Piece>, p: Piece)
    ensures a + b + [p] == a + (b + [p])
  {
  }

  lemma NoPieceYet(done: seq<Piece>, points: seq<Point>, scale: real)
    ensures points != [] ==> done + PiecesOf(points[..1], scale) == done
  {
  }

  /** Paints all pieces of one segment. */
  method PaintSegment(sqrt: real -> real, ghost done: seq<Piece>, segment: Segment, scale: real, radius: real, width: nat, height: nat,
                      coverage: array<int>)
    requires IsSqrt(sqrt) && width > 0 && coverage.Length == width * height
    requires Covers(sqrt, done, radius, width, coverage[..])
    modifies coverage
    ensures Covers(sqrt, done + PiecesOf(Flattened(sqrt, segment, scale), scale), radius, width, coverage[..])
  {
    var points := Flatten(sqrt, segment, scale);
    var i := 0;
    NoPieceYet(done, Flattened(sqrt, segment, scale), scale);
    assert |points| >= 2;
    hide IsSqrt, Covers, PaintedTo, PiecesOf, Coverage, Flattened;
    while i + 1 < |points|
      invariant 0 <= i < |points|
      invariant Covers(sqrt, done + PiecesOf(points[..i + 1], scale), radius, width, coverage[..])
    {
      var piece := Piece(Scaled(points[i], scale), Scaled(points[i + 1], scale));
      CoversNonNegative(sqrt, done + PiecesOf(points[..i + 1], scale), radius, width, coverage[..]);
      ghost var was := coverage[..];
      PaintPiece(sqrt, piece, radius, width, height, coverage);
      CoversNext(sqrt, done + PiecesOf(points[..i + 1], scale), piece, radius, width, height, was, coverage[..]);
      PiecesOfNext(points, scale, i);
      Joined(done, PiecesOf(points[..i + 1], scale), piece);
      i := i + 1;
    }
    assert points[..i + 1] == points;
  }

  function Scale(geometry: Geometry, widthPx: nat): real
    requires geometry.viewBoxWidth != 0.0
  {
    widthPx as real / geometry.viewBoxWidth
  }

  function Radius(geometry: Geometry, widthPx: nat): real
    requires geometry.viewBoxWidth != 0.0
  {
    geometry.strokeWidth * Scale(geometry, widthPx) / 2.0
  }

  /** The plain definition of one pixel of the mark. */
  function MarkCoverage(sqrt: real -> real, geometry: Geometry, widthPx: nat, x: int, y: int): int
    requires geometry.viewBoxWidth != 0.0
  {
    Coverage(sqrt, Pieces(sqrt, geometry.segments, Scale(geometry, widthPx)), Radius(geometry, widthPx), x, y)
  }

  /** A piece belongs to the geometry exactly when it belongs to one of its segments. */
  lemma {:induction false} PieceOfSegment(sqrt: real -> real, segments: seq<Segment>, scale: real, p: Piece)
    ensures p in Pieces(sqrt, segments, scale)
       <==> exists s :: s in segments && p in PiecesOf(Flattened(sqrt, s, scale), scale)
  {
    hide PiecesOf, Flattened;
    if segments != [] {
      var n := |segments| - 1;
      PieceOfSegment(sqrt, segments[..n], scale, p);
      assert segments[n] in segments;
      assert forall s :: s in segments <==> s in segments[..n] || s == segments[n];
    }
  }

  function PieceAt(points: seq<Point>, scale: real, i: nat): Piece
    requires i + 1 < |points|
  {
    Piece(Scaled(points[i], scale), Scaled(points[i + 1], scale))
  }

  lemma {:induction false} PiecesOfMembers(points: seq<Point>, scale: real, p: Piece)
    ensures p in PiecesOf(points, scale) <==> exists i: nat :: i + 1 < |points| && PieceAt(points, scale, i) == p
  {
    if |points| >= 2 {
      var n := |points| - 1;
      PiecesOfMembers(points[..n], scale, p);
      forall i: nat | i + 1 < n ensures PieceAt(points[..n], scale, i) == PieceAt(points, scale, i) {}
      assert PiecesOf(points, scale) == PiecesOf(points[..n], scale) + [PieceAt(points, scale, n - 1)];
    }
  }

  /** The picture does not depend on the order of the segments, nor on repetitions. */
  lemma OrderDoesNotMatter(sqrt: real -> real, geometry: Geometry, others: seq<Segment>, widthPx: nat, x: int, y: int)
    requires geometry.viewBoxWidth != 0.0 && forall s :: s in geometry.segments <==> s in others
    ensures MarkCoverage(sqrt, geometry, widthPx, x, y) == MarkCoverage(sqrt, geometry.(segments := others), widthPx, x, y)
  {
    SameScale(geometry, others, widthPx);
    SamePieces(sqrt, geometry.segments, others, Scale(geometry, widthPx));
    hide Coverage, Pieces, Scale, Radius;
    PieceOrder(sqrt, Pieces(sqrt, geometry.segments, Scale(geometry, widthPx)), Pieces(sqrt, others, Scale(geometry, widthPx)),
               Radius(geometry, widthPx), x, y);
  }

  lemma SameScale(geometry: Geometry, others: seq<Segment>, widthPx: nat)
    requires geometry.viewBoxWidth != 0.0
    ensures var g := geometry.(segments := others);
            g.segments == others && Scale(g, widthPx) == Scale(geometry, widthPx) && Radius(g, widthPx) == Radius(geometry, widthPx)
  {
  }

  lemma SamePieces(sqrt: real -> real, segments: seq<Segment>, others: seq<Segment>, scale: real)
    requires forall s :: s in segments <==> s in others
    ensures forall p :: p in Pieces(sqrt, segments, scale) <==> p in Pieces(sqrt, others, scale)
  {
    hide Pieces, PiecesOf, Flattened;
    forall p ensures p in Pieces(sqrt, segments, scale) <==> p in Pieces(sqrt, others, scale) {
      PieceOfSegment(sqrt, segments, scale, p);
      PieceOfSegment(sqrt, others, scale, p);
    }
  }

  lemma CoversPixels(sqrt: real -> real, pieces: seq<Piece>, radius: real, width: nat, canvas: array<int>)
    requires width > 0 && Covers(sqrt, pieces, radius, width, canvas[..])
    ensures forall k: nat :: k < canvas.Length ==> canvas[k] == Coverage(sqrt, pieces, radius, k % width, k / width)
  {
    hide Coverage;
    assert forall k: nat :: k < canvas.Length ==> canvas[k] == canvas[..][k];
  }

  /**
   The in-place rasteriser ends with the plain definition: every pixel of the whole canvas holds the
   maximum over all flattened pieces, though each piece visits its clipped bounding box only.
   */
  method RasterizeCoverage(sqrt: real -> real, geometry: Geometry, widthPx: nat, heightPx: nat) returns (coverage: array<int>)
    requires IsSqrt(sqrt) && geometry.viewBoxWidth != 0.0
    ensures fresh(coverage) && coverage.Length == widthPx * heightPx
    ensures forall k :: 0 <= k < coverage.Length ==> widthPx > 0 && 0 <= coverage[k] <= 255
    ensures forall k: nat :: k < coverage.Length ==>
              coverage[k] == MarkCoverage(sqrt, geometry, widthPx, k % widthPx, k / widthPx)
  {
    var scale := widthPx as real / geometry.viewBoxWidth;
    var radius := geometry.strokeWidth * scale / 2.0;
    assert scale == Scale(geometry, widthPx) && radius == Radius(geometry, widthPx);
    hide Scale, Radius;
    coverage := new int[widthPx * heightPx](_ => 0);
    if widthPx == 0 {
      assert widthPx * heightPx == 0;
      return;
    }
    var segments := geometry.segments;
    var n := 0;
    assert Covers(sqrt, Pieces(sqrt, segments[..0], scale), radius, widthPx, coverage[..]);
    hide Pieces, Covers, IsSqrt, Coverage;
    while n < |segments|
      invariant 0 <= n <= |segments|
      invariant Covers(sqrt, Pieces(sqrt, segments[..n], scale), radius, widthPx, coverage[..])
    {
      PaintSegment(sqrt, Pieces(sqrt, segments[..n], scale), segments[n], scale, radius, widthPx, heightPx, coverage);
      PiecesNext(sqrt, segments, scale, n);
      n := n + 1;
    }
    assert segments[..n] == segments;
    CoversNonNegative(sqrt, Pieces(sqrt, segments, scale), radius, widthPx, coverage[..]);
    CoversPixels(sqrt, Pieces(sqrt, segments, scale), radius, widthPx, coverage);
  }
}
