/**
 What a pixel of the mark shows (src/brand/mark-renderer.ts:87-141): how far its centre is from the drawn lines.
 The lines are described by their points, and curves by de Casteljau's construction.
 */
module MarkDistance {
  import opened Raster
  import MarkSymmetry

  // ---- the drawn lines ----

  function Part(a: real, b: real, t: real): real { a + t * (b - a) }

  /** The point at t on the way from p to q. */
  function Lerp(p: Point, q: Point, t: real): Point { Point(Part(p.x, q.x, t), Part(p.y, q.y, t)) }

  /** The square of the distance. */
  function Squared(p: Point, q: Point): real {
    (q.x - p.x) * (q.x - p.x) + (q.y - p.y) * (q.y - p.y)
  }

  /** De Casteljau's construction of the point of a cubic at t. */
  function Casteljau(s: Segment, t: real): Point
    requires s.Cubic?
  {
    var a, b, c := Lerp(s.p0, s.p1, t), Lerp(s.p1, s.p2, t), Lerp(s.p2, s.p3, t);
    Lerp(Lerp(a, b, t), Lerp(b, c, t), t)
  }

  ghost predicate IsLength(l: real, p: Point, q: Point) { 0.0 <= l && l * l == Squared(p, q) }

  /** The least number from 8 on with at most two device pixels of the length for each. */
  predicate Enough(n: int, length: real, scale: real) {
    8 <= n && length * scale <= 2.0 * n as real && (n > 8 ==> 2.0 * (n - 1) as real < length * scale)
  }

  /** Into how many straight pieces a segment is drawn: a curve by the length of its control polygon. */
  ghost predicate IsPieceCount(n: int, s: Segment, scale: real) {
    match s
    case Line(_, _) => n == 1
    case Cubic(p0, p1, p2, p3) =>
      exists l0, l1, l2 :: IsLength(l0, p0, p1) && IsLength(l1, p1, p2) && IsLength(l2, p2, p3) && Enough(n, l0 + l1 + l2, scale)
  }

  /** Where piece i of n begins, and piece i - 1 ends. */
  function Corner(s: Segment, n: nat, i: nat): Point
    requires n > 0
  {
    match s
    case Line(a, b) => if i == 0 then a else b
    case Cubic(_, _, _, _) => Casteljau(s, i as real / n as real)
  }

  /** In pixels. */
  function Enlarged(p: Point, scale: real): Point { Point(p.x * scale, p.y * scale) }

  /** Half the stroke's width, in pixels. */
  function LineRadius(g: Geometry, widthPx: nat): real
    requires g.viewBoxWidth != 0.0
  {
    g.strokeWidth * (widthPx as real / g.viewBoxWidth) / 2.0
  }

  ghost predicate OnPieceOf(q: Point, s: Segment, scale: real, n: nat, i: nat, t: real) {
    && n > 0 && IsPieceCount(n, s, scale) && i < n && 0.0 <= t <= 1.0
    && q == Lerp(Enlarged(Corner(s, n, i), scale), Enlarged(Corner(s, n, i + 1), scale), t)
  }

  ghost predicate OnSegment(q: Point, s: Segment, scale: real) {
    exists n: nat, i: nat, t: real :: OnPieceOf(q, s, scale, n, i, t)
  }

  /** q, in pixels, is a point of a line of the geometry drawn at that width. */
  ghost predicate OnMark(q: Point, g: Geometry, widthPx: nat)
    requires g.viewBoxWidth != 0.0
  {
    exists s :: s in g.segments && OnSegment(q, s, widthPx as real / g.viewBoxWidth)
  }

  /** d is the distance from c to the nearest point of the drawn lines. */
  ghost predicate IsDistance(d: real, c: Point, g: Geometry, widthPx: nat)
    requires g.viewBoxWidth != 0.0
  {
    && 0.0 <= d
    && (exists q :: OnMark(q, g, widthPx) && Squared(c, q) == d * d)
    && (forall q :: OnMark(q, g, widthPx) ==> d * d <= Squared(c, q))
  }

  /** The value of a pixel at distance d from a line of radius r: opaque half a pixel inside, clear half a pixel
      outside, and in between 255 times what is left to the outside, rounded half up. */
  predicate IsShade(v: int, d: real, r: real) {
    if d >= r + 0.5 then v == 0
    else if d <= r - 0.5 then v == 255
    else v as real - 0.5 <= 255.0 * (r + 0.5 - d) < v as real + 0.5
  }

  // ---- the nearest point of one piece ----

  /** By how much the squared distance to the point at s exceeds that at t: m is the dot product of the
      piece and the way to the pixel, l that of the piece with itself. */
  function Excess(s: real, t: real, l: real, m: real): real {
    ((s - t) * (s - t)) * l + 2.0 * ((s - t) * (t * l - m))
  }

  function Off(wx: real, wy: real, dx: real, dy: real, t: real): real {
    Dot(wx - t * dx, wy - t * dy, wx - t * dx, wy - t * dy)
  }

  lemma Parabola(wx: real, wy: real, dx: real, dy: real, s: real, t: real)
    ensures Off(wx, wy, dx, dy, s) - Off(wx, wy, dx, dy, t) == Excess(s, t, Dot(dx, dy, dx, dy), Dot(wx, wy, dx, dy))
  {
    ParabolaAxis(wx, dx, s, t, dx * dx, wx * dx);
    ParabolaAxis(wy, dy, s, t, dy * dy, wy * dy);
    var u := s - t;
    assert u * u * (dx * dx) + u * u * (dy * dy) == (u * u) * (dx * dx + dy * dy);
    assert u * (t * (dx * dx) - wx * dx) + u * (t * (dy * dy) - wy * dy) == u * (t * (dx * dx + dy * dy) - (wx * dx + wy * dy));
  }

  lemma ParabolaAxis(w: real, d: real, s: real, t: real, l: real, m: real)
    requires l == d * d && m == w * d
    ensures (w - s * d) * (w - s * d) - (w - t * d) * (w - t * d) == (s - t) * (s - t) * l + 2.0 * ((s - t) * (t * l - m))
  {
    Square(w, s * d);
    Square(w, t * d);
    assert w * (s * d) == s * m && w * (t * d) == t * m;
    assert (s * d) * (s * d) == s * s * l && (t * d) * (t * d) == t * t * l;
    assert (s - t) * (s - t) * l == s * s * l - 2.0 * (s * t * l) + t * t * l;
    assert (s - t) * (t * l - m) == s * t * l - s * m - t * t * l + t * m;
  }

  lemma Square(a: real, b: real)
    ensures (a - b) * (a - b) == a * a - 2.0 * (a * b) + b * b
  {
  }

  /** The clamped quotient is where the parabola is least between 0 and 1. */
  lemma ClampIsLeast(l: real, m: real, s: real)
    requires 0.0 <= l && (l == 0.0 ==> m == 0.0) && 0.0 <= s <= 1.0
    ensures var t := Clamp(if l > 0.0 then m / l else 0.0);
            0.0 <= t <= 1.0 && 0.0 <= Excess(s, t, l, m)
  {
    var t := Clamp(if l > 0.0 then m / l else 0.0);
    SquareNonNegative(s - t);
    ProductNonNegative((s - t) * (s - t), l);
    if l > 0.0 {
      var q := m / l;
      assert q * l == m;
      if q < 0.0 {
        ProductNonNegative(-q, l);
        ProductNonNegative(s, -m);
      } else if q > 1.0 {
        ProductNonNegative(q - 1.0, l);
        ProductNonNegative(1.0 - s, m - l);
        assert (s - 1.0) * (1.0 * l - m) == (1.0 - s) * (m - l);
      } else {
        assert t * l - m == 0.0;
      }
    } else {
      assert t * l - m == 0.0;
    }
  }

  lemma NoLengthNoDot(wx: real, wy: real, dx: real, dy: real)
    ensures 0.0 <= Dot(dx, dy, dx, dy)
    ensures Dot(dx, dy, dx, dy) == 0.0 ==> Dot(wx, wy, dx, dy) == 0.0
  {
    SquareNonNegative(dx);
    SquareNonNegative(dy);
    if Dot(dx, dy, dx, dy) == 0.0 { MarkSymmetry.LengthZero(dx, dy); }
  }

  lemma LeastOff(wx: real, wy: real, dx: real, dy: real, s: real)
    requires 0.0 <= s <= 1.0
    ensures var l := Dot(dx, dy, dx, dy);
            var t := Clamp(if l > 0.0 then Dot(wx, wy, dx, dy) / l else 0.0);
            0.0 <= t <= 1.0 && Off(wx, wy, dx, dy, t) <= Off(wx, wy, dx, dy, s)
  {
    var l, m := Dot(dx, dy, dx, dy), Dot(wx, wy, dx, dy);
    var t := Clamp(if l > 0.0 then m / l else 0.0);
    NoLengthNoDot(wx, wy, dx, dy);
    Parabola(wx, wy, dx, dy, s, t);
    hide *;
    ClampIsLeast(l, m, s);
  }

  lemma SquaredIsOff(px: real, py: real, p: Piece, t: real)
    ensures Squared(Point(px, py), Lerp(p.a, p.b, t)) == Off(px - p.a.x, py - p.a.y, p.b.x - p.a.x, p.b.y - p.a.y, t)
  {
    var ex, ey := px - p.a.x - t * (p.b.x - p.a.x), py - p.a.y - t * (p.b.y - p.a.y);
    NegatedSquare(ex);
    NegatedSquare(ey);
    var q := Lerp(p.a, p.b, t);
    assert q.x - px == -ex && q.y - py == -ey;
  }

  lemma DistanceSquared(sqrt: real -> real, p: Piece, px: real, py: real)
    requires IsSqrt(sqrt)
    ensures var d := DistanceTo(sqrt, p, px, py);
            0.0 <= d && d * d == Off(px - p.a.x, py - p.a.y, p.b.x - p.a.x, p.b.y - p.a.y, Projection(p, px, py))
  {
    var t := Projection(p, px, py);
    var ex, ey := px - Along(p.a.x, t, p.b.x - p.a.x), py - Along(p.a.y, t, p.b.y - p.a.y);
    SquareNonNegative(ex);
    SquareNonNegative(ey);
    hide Projection;
    assert 0.0 <= Dot(ex, ey, ex, ey);
  }

  /** No point of the piece is nearer than `DistanceTo`, and one is just as near. */
  lemma DistanceIsLeast(sqrt: real -> real, p: Piece, px: real, py: real, s: real)
    requires IsSqrt(sqrt) && 0.0 <= s <= 1.0
    ensures var d, t := DistanceTo(sqrt, p, px, py), Projection(p, px, py);
            && 0.0 <= d && 0.0 <= t <= 1.0
            && Squared(Point(px, py), Lerp(p.a, p.b, t)) == d * d
            && d * d <= Squared(Point(px, py), Lerp(p.a, p.b, s))
  {
    var t := Projection(p, px, py);
    hide DistanceTo, Squared, Lerp, Dot, IsSqrt, Clamp, Off;
    LeastOff(px - p.a.x, py - p.a.y, p.b.x - p.a.x, p.b.y - p.a.y, s);
    SquaredIsOff(px, py, p, s);
    SquaredIsOff(px, py, p, t);
    DistanceSquared(sqrt, p, px, py);
  }

  // ---- the pieces are the drawn lines ----

  lemma PartIs(a: real, b: real, t: real)
    ensures Part(a, b, t) == (1.0 - t) * a + t * b
  {
  }

  lemma CasteljauAxis(c0: real, c1: real, c2: real, c3: real, t: real)
    ensures var a, b, c := Part(c0, c1, t), Part(c1, c2, t), Part(c2, c3, t);
            Part(Part(a, b, t), Part(b, c, t), t) == Mix(WeightsAt(t, 1.0 - t), c0, c1, c2, c3)
  {
    var u := 1.0 - t;
    var a, b, c := Part(c0, c1, t), Part(c1, c2, t), Part(c2, c3, t);
    hide *;
    Twice(u, t, c0, c1, c2);
    Twice(u, t, c1, c2, c3);
    Thrice(u, t, c0, c1, c2, c3, Part(a, b, t), Part(b, c, t));
  }

  lemma Twice(u: real, t: real, x: real, y: real, z: real)
    requires u == 1.0 - t
    ensures Part(Part(x, y, t), Part(y, z, t), t) == u * u * x + 2.0 * (u * t * y) + t * t * z
  {
    var xy, yz := Part(x, y, t), Part(y, z, t);
    PartIs(x, y, t);
    PartIs(y, z, t);
    PartIs(xy, yz, t);
    hide Part;
    assert u * xy == u * u * x + u * t * y;
    assert t * yz == u * t * y + t * t * z;
  }

  lemma Thrice(u: real, t: real, c0: real, c1: real, c2: real, c3: real, e: real, f: real)
    requires u == 1.0 - t
    requires e == u * u * c0 + 2.0 * (u * t * c1) + t * t * c2
    requires f == u * u * c1 + 2.0 * (u * t * c2) + t * t * c3
    ensures Part(e, f, t) == Mix(WeightsAt(t, u), c0, c1, c2, c3)
  {
    PartIs(e, f, t);
    Distribute(u, e, u * u * c0, u * t * c1, t * t * c2);
    Distribute(t, f, u * u * c1, u * t * c2, t * t * c3);
    Reassociate(u, t, c0, c1, c2, c3);
    hide Part;
  }

  lemma Distribute(u: real, e: real, a: real, b: real, c: real)
    requires e == a + 2.0 * b + c
    ensures u * e == u * a + 2.0 * (u * b) + u * c
  {
  }

  lemma Reassociate(u: real, t: real, c0: real, c1: real, c2: real, c3: real)
    ensures u * (u * u * c0) + 2.0 * (u * (u * t * c1)) + u * (t * t * c2)
            + (t * (u * u * c1) + 2.0 * (t * (u * t * c2)) + t * (t * t * c3)) == Mix(WeightsAt(t, u), c0, c1, c2, c3)
  {
    assert u * (u * u * c0) == u * u * u * c0;
    assert 2.0 * (u * (u * t * c1)) + t * (u * u * c1) == 3.0 * u * u * t * c1;
    assert u * (t * t * c2) + 2.0 * (t * (u * t * c2)) == 3.0 * u * t * t * c2;
    assert t * (t * t * c3) == t * t * t * c3;
  }

  /** The weights of the source give de Casteljau's point. */
  lemma CurveIsCasteljau(s: Segment, t: real)
    requires s.Cubic?
    ensures CurvePoint(s, t) == Casteljau(s, t)
  {
    CasteljauAxis(s.p0.x, s.p1.x, s.p2.x, s.p3.x, t);
    CasteljauAxis(s.p0.y, s.p1.y, s.p2.y, s.p3.y, t);
    hide Mix, WeightsAt, Part;
  }

  lemma RootIsUnique(a: real, b: real)
    requires 0.0 <= a && 0.0 <= b && a * a == b * b
    ensures a == b
  {
    if a < b { SquareMonotone(a, b); }
    if b < a { SquareMonotone(b, a); }
  }

  lemma LengthIsDistance(sqrt: real -> real, l: real, p: Point, q: Point)
    requires IsSqrt(sqrt)
    ensures IsLength(l, p, q) <==> l == Distance(sqrt, p, q)
  {
    var dx, dy := q.x - p.x, q.y - p.y;
    SquareNonNegative(dx);
    SquareNonNegative(dy);
    assert Squared(p, q) == Dot(dx, dy, dx, dy) && 0.0 <= Squared(p, q);
    if IsLength(l, p, q) { RootIsUnique(l, Distance(sqrt, p, q)); }
  }

  lemma EnoughIsSteps(n: int, length: real, scale: real)
    ensures Enough(n, length, scale) <==> n == MaxInt(8, Ceil(length * scale / 2.0))
  {
    var half := length * scale / 2.0;
    var m := Ceil(half);
    assert m as real - 1.0 < half <= m as real;
    hide Ceil;
    if Enough(n, length, scale) && n > 8 {
      assert (n - 1) as real < half <= n as real;
      assert (n - 1) as real < m as real && (m - 1) as real < n as real;
    }
  }

  lemma CountIsSteps(sqrt: real -> real, s: Segment, scale: real, n: int)
    requires IsSqrt(sqrt)
    ensures IsPieceCount(n, s, scale) <==> n == |Flattened(sqrt, s, scale)| - 1
  {
    if s.Cubic? {
      var l0, l1, l2 := Distance(sqrt, s.p0, s.p1), Distance(sqrt, s.p1, s.p2), Distance(sqrt, s.p2, s.p3);
      EnoughIsSteps(n, l0 + l1 + l2, scale);
      forall l ensures IsLength(l, s.p0, s.p1) <==> l == l0 { LengthIsDistance(sqrt, l, s.p0, s.p1); }
      forall l ensures IsLength(l, s.p1, s.p2) <==> l == l1 { LengthIsDistance(sqrt, l, s.p1, s.p2); }
      forall l ensures IsLength(l, s.p2, s.p3) <==> l == l2 { LengthIsDistance(sqrt, l, s.p2, s.p3); }
      hide IsLength, Distance, Enough, Ceil, IsSqrt;
      assert IsLength(l0, s.p0, s.p1) && IsLength(l1, s.p1, s.p2) && IsLength(l2, s.p2, s.p3);
    }
  }

  lemma CornerIsFlattened(sqrt: real -> real, s: Segment, scale: real, i: nat)
    requires i < |Flattened(sqrt, s, scale)|
    ensures |Flattened(sqrt, s, scale)| >= 2
    ensures Corner(s, |Flattened(sqrt, s, scale)| - 1, i) == Flattened(sqrt, s, scale)[i]
  {
    if s.Cubic? {
      assert Steps(sqrt, s, scale) >= 8;
      CurveIsCasteljau(s, Parameter(i, Steps(sqrt, s, scale)));
      hide Casteljau, CurvePoint, Steps;
    }
  }

  /** The point at t of a piece. */
  ghost predicate OnPiece(q: Point, p: Piece) { exists t :: 0.0 <= t <= 1.0 && q == Lerp(p.a, p.b, t) }

  lemma PieceIsDrawn(sqrt: real -> real, s: Segment, scale: real, i: nat)
    requires IsSqrt(sqrt) && i + 1 < |Flattened(sqrt, s, scale)|
    ensures var n: nat := |Flattened(sqrt, s, scale)| - 1;
            && IsPieceCount(n, s, scale)
            && PieceAt(Flattened(sqrt, s, scale), scale, i) == Piece(Enlarged(Corner(s, n, i), scale), Enlarged(Corner(s, n, i + 1), scale))
  {
    hide *;
    CountIsSteps(sqrt, s, scale, |Flattened(sqrt, s, scale)| - 1);
    CornerIsFlattened(sqrt, s, scale, i);
    CornerIsFlattened(sqrt, s, scale, i + 1);
    PieceAtIs(Flattened(sqrt, s, scale), scale, i);
  }

  lemma PieceAtIs(points: seq<Point>, scale: real, i: nat)
    requires i + 1 < |points|
    ensures PieceAt(points, scale, i) == Piece(Enlarged(points[i], scale), Enlarged(points[i + 1], scale))
  {
  }

  lemma DrawnSegment(sqrt: real -> real, s: Segment, scale: real, q: Point)
    requires IsSqrt(sqrt)
    ensures OnSegment(q, s, scale) <==> exists p :: p in PiecesOf(Flattened(sqrt, s, scale), scale) && OnPiece(q, p)
  {
    var points := Flattened(sqrt, s, scale);
    hide Flattened, Corner, IsPieceCount, IsSqrt, Lerp, Enlarged, PiecesOf;
    if n: nat, i: nat, t: real :| OnPieceOf(q, s, scale, n, i, t) {
      CountIsSteps(sqrt, s, scale, n);
      PieceIsDrawn(sqrt, s, scale, i);
      PiecesOfMembers(points, scale, PieceAt(points, scale, i));
      assert OnPiece(q, PieceAt(points, scale, i));
    }
    if p :| p in PiecesOf(points, scale) && OnPiece(q, p) {
      PiecesOfMembers(points, scale, p);
      var i: nat :| i + 1 < |points| && PieceAt(points, scale, i) == p;
      PieceIsDrawn(sqrt, s, scale, i);
      var t :| 0.0 <= t <= 1.0 && q == Lerp(p.a, p.b, t);
      assert OnPieceOf(q, s, scale, |points| - 1, i, t);
    }
  }

  /** The points of the pieces that are painted are the points of the drawn lines. */
  lemma DrawnMark(sqrt: real -> real, g: Geometry, widthPx: nat, q: Point)
    requires IsSqrt(sqrt) && g.viewBoxWidth != 0.0
    ensures OnMark(q, g, widthPx) <==> exists p :: p in Pieces(sqrt, g.segments, Scale(g, widthPx)) && OnPiece(q, p)
  {
    var scale := Scale(g, widthPx);
    hide OnSegment, IsSqrt, OnPiece, Pieces, PiecesOf, Flattened;
    if OnMark(q, g, widthPx) {
      var s :| s in g.segments && OnSegment(q, s, scale);
      DrawnSegment(sqrt, s, scale, q);
      var p :| p in PiecesOf(Flattened(sqrt, s, scale), scale) && OnPiece(q, p);
      PieceOfSegment(sqrt, g.segments, scale, p);
    }
    if p :| p in Pieces(sqrt, g.segments, scale) && OnPiece(q, p) {
      PieceOfSegment(sqrt, g.segments, scale, p);
      var s :| s in g.segments && p in PiecesOf(Flattened(sqrt, s, scale), scale);
      DrawnSegment(sqrt, s, scale, q);
    }
  }

  // ---- the pixel ----

  lemma {:induction false} NearestPiece(sqrt: real -> real, pieces: seq<Piece>, px: real, py: real) returns (p: Piece)
    requires pieces != []
    ensures p in pieces && forall other :: other in pieces ==> DistanceTo(sqrt, p, px, py) <= DistanceTo(sqrt, other, px, py)
  {
    hide DistanceTo;
    var last := pieces[|pieces| - 1];
    assert pieces == pieces[..|pieces| - 1] + [last];
    if |pieces| == 1 {
      p := last;
    } else {
      p := NearestPiece(sqrt, pieces[..|pieces| - 1], px, py);
      if DistanceTo(sqrt, last, px, py) < DistanceTo(sqrt, p, px, py) { p := last; }
    }
  }

  lemma ShadeIsValue(distance: real, radius: real)
    ensures IsShade(ValueAt(distance, radius), distance, radius)
  {
  }

  lemma NearerIsDarker(near: real, far: real, radius: real)
    requires near <= far
    ensures ValueAt(far, radius) <= ValueAt(near, radius)
  {
    ValueRange(near, radius);
    ValueRange(far, radius);
  }

  /** The greatest value is that of the nearest piece. */
  lemma CoverageOfNearest(sqrt: real -> real, pieces: seq<Piece>, p: Piece, radius: real, x: int, y: int)
    requires p in pieces
    requires forall other :: other in pieces ==>
               DistanceTo(sqrt, p, x as real + 0.5, y as real + 0.5) <= DistanceTo(sqrt, other, x as real + 0.5, y as real + 0.5)
    ensures Coverage(sqrt, pieces, radius, x, y) == ValueAt(DistanceTo(sqrt, p, x as real + 0.5, y as real + 0.5), radius)
  {
    CoverageIsMax(sqrt, pieces, radius, x, y);
    ValueRange(DistanceTo(sqrt, p, x as real + 0.5, y as real + 0.5), radius);
    hide DistanceTo, ValueAt, Coverage;
    forall other | other in pieces ensures PixelValue(sqrt, other, radius, x, y) <= PixelValue(sqrt, p, radius, x, y) {
      NearerIsDarker(DistanceTo(sqrt, p, x as real + 0.5, y as real + 0.5), DistanceTo(sqrt, other, x as real + 0.5, y as real + 0.5), radius);
    }
  }

  /** No point of the drawn lines is nearer than the nearest piece. */
  lemma NotNearer(sqrt: real -> real, g: Geometry, widthPx: nat, d: real, px: real, py: real, q: Point)
    requires IsSqrt(sqrt) && g.viewBoxWidth != 0.0 && 0.0 <= d && OnMark(q, g, widthPx)
    requires forall other :: other in Pieces(sqrt, g.segments, Scale(g, widthPx)) ==> d <= DistanceTo(sqrt, other, px, py)
    ensures d * d <= Squared(Point(px, py), q)
  {
    hide *;
    DrawnMark(sqrt, g, widthPx, q);
    var other :| other in Pieces(sqrt, g.segments, Scale(g, widthPx)) && OnPiece(q, other);
    NotNearerOne(sqrt, other, d, px, py, q);
  }

  lemma NotNearerOne(sqrt: real -> real, other: Piece, d: real, px: real, py: real, q: Point)
    requires IsSqrt(sqrt) && 0.0 <= d && OnPiece(q, other) && d <= DistanceTo(sqrt, other, px, py)
    ensures d * d <= Squared(Point(px, py), q)
  {
    var t :| 0.0 <= t <= 1.0 && q == Lerp(other.a, other.b, t);
    hide *;
    DistanceIsLeast(sqrt, other, px, py, t);
    SquaresInOrder(d, DistanceTo(sqrt, other, px, py), d * d);
  }

  lemma SquaresInOrder(d: real, e: real, squared: real)
    requires 0.0 <= d <= e && squared == d * d
    ensures squared <= e * e
  {
    if d < e { SquareMonotone(d, e); }
  }

  /** The nearest point of a painted piece is a point of the drawn lines. */
  lemma NearestIsDrawn(sqrt: real -> real, g: Geometry, widthPx: nat, p: Piece, px: real, py: real) returns (q: Point)
    requires IsSqrt(sqrt) && g.viewBoxWidth != 0.0
    requires p in Pieces(sqrt, g.segments, Scale(g, widthPx))
    ensures var d := DistanceTo(sqrt, p, px, py); 0.0 <= d && OnMark(q, g, widthPx) && Squared(Point(px, py), q) == d * d
  {
    q := Lerp(p.a, p.b, Projection(p, px, py));
    hide OnMark, Pieces, DistanceTo, Projection, IsSqrt, Squared, Lerp;
    DistanceIsLeast(sqrt, p, px, py, 0.0);
    assert OnPiece(q, p);
    DrawnMark(sqrt, g, widthPx, q);
  }

  lemma NearestIsDistance(sqrt: real -> real, g: Geometry, widthPx: nat, p: Piece, px: real, py: real)
    requires IsSqrt(sqrt) && g.viewBoxWidth != 0.0
    requires p in Pieces(sqrt, g.segments, Scale(g, widthPx))
    requires forall other :: other in Pieces(sqrt, g.segments, Scale(g, widthPx)) ==>
               DistanceTo(sqrt, p, px, py) <= DistanceTo(sqrt, other, px, py)
    ensures IsDistance(DistanceTo(sqrt, p, px, py), Point(px, py), g, widthPx)
  {
    hide OnMark, Pieces, DistanceTo, IsSqrt, Squared;
    var d := DistanceTo(sqrt, p, px, py);
    var nearest := NearestIsDrawn(sqrt, g, widthPx, p, px, py);
    forall q | OnMark(q, g, widthPx) ensures d * d <= Squared(Point(px, py), q) {
      NotNearer(sqrt, g, widthPx, d, px, py, q);
    }
  }

  lemma {:induction false} SomePiece(sqrt: real -> real, segments: seq<Segment>, scale: real)
    requires segments != []
    ensures Pieces(sqrt, segments, scale) != []
  {
    var s := segments[0];
    var points := Flattened(sqrt, s, scale);
    assert s.Cubic? ==> Steps(sqrt, s, scale) >= 8;
    assert |points| >= 2;
    hide Flattened;
    var p := PieceAt(points, scale, 0);
    PiecesOfMembers(points, scale, p);
    PieceOfSegment(sqrt, segments, scale, p);
    hide Pieces, PiecesOf;
    assert s in segments && p in PiecesOf(points, scale);
  }

  /** A pixel of the mark has the shade of its centre's distance from the drawn lines; without lines it is clear. */
  lemma PixelIsShade(sqrt: real -> real, g: Geometry, widthPx: nat, x: int, y: int) returns (d: real)
    requires IsSqrt(sqrt) && g.viewBoxWidth != 0.0
    ensures g.segments == [] ==> MarkCoverage(sqrt, g, widthPx, x, y) == 0
    ensures g.segments != [] ==>
              && IsDistance(d, Point(x as real + 0.5, y as real + 0.5), g, widthPx)
              && IsShade(MarkCoverage(sqrt, g, widthPx, x, y), d, LineRadius(g, widthPx))
  {
    if g.segments == [] {
      d := 0.0;
    } else {
      SomePiece(sqrt, g.segments, Scale(g, widthPx));
      hide *;
      var pieces := Pieces(sqrt, g.segments, Scale(g, widthPx));
      var p := NearestPiece(sqrt, pieces, x as real + 0.5, y as real + 0.5);
      d := DistanceTo(sqrt, p, x as real + 0.5, y as real + 0.5);
      NearestIsDistance(sqrt, g, widthPx, p, x as real + 0.5, y as real + 0.5);
      CoverageOfNearest(sqrt, pieces, p, Radius(g, widthPx), x, y);
      MarkValue(sqrt, g, widthPx, x, y, d);
    }
  }

  /** v is the shade of a pixel with centre c; clear, if nothing is drawn. */
  ghost predicate Shades(v: int, c: Point, g: Geometry, widthPx: nat)
    requires g.viewBoxWidth != 0.0
  {
    if g.segments == [] then v == 0
    else exists d :: IsDistance(d, c, g, widthPx) && IsShade(v, d, LineRadius(g, widthPx))
  }

  lemma PixelShades(sqrt: real -> real, g: Geometry, widthPx: nat, x: int, y: int)
    requires IsSqrt(sqrt) && g.viewBoxWidth != 0.0
    ensures Shades(MarkCoverage(sqrt, g, widthPx, x, y), Point(x as real + 0.5, y as real + 0.5), g, widthPx)
  {
    var d := PixelIsShade(sqrt, g, widthPx, x, y);
    hide MarkCoverage, IsDistance, IsSqrt, IsShade, LineRadius;
    assert g.segments != [] ==> IsDistance(d, Point(x as real + 0.5, y as real + 0.5), g, widthPx);
  }

  lemma MarkValue(sqrt: real -> real, g: Geometry, widthPx: nat, x: int, y: int, d: real)
    requires g.viewBoxWidth != 0.0
    requires Coverage(sqrt, Pieces(sqrt, g.segments, Scale(g, widthPx)), Radius(g, widthPx), x, y) == ValueAt(d, Radius(g, widthPx))
    ensures IsShade(MarkCoverage(sqrt, g, widthPx, x, y), d, LineRadius(g, widthPx))
  {
    SameRadius(g, widthPx);
    ShadeIsValue(d, Radius(g, widthPx));
    hide LineRadius, Radius, Coverage, IsShade, ValueAt, Pieces, Scale;
  }

  lemma SameRadius(g: Geometry, widthPx: nat)
    requires g.viewBoxWidth != 0.0
    ensures Radius(g, widthPx) == LineRadius(g, widthPx)
  {
  }

  lemma OnFirstStroke()
    ensures OnMark(Point(256.0, 330.5), MarkSymmetry.SEOUL_SIDE_MARK, 1000)
  {
    var s, q := MarkSymmetry.SEGMENTS[4], Point(256.0, 330.5);
    var t := 8.5 / 178.0;
    var a, b := Point(256.0, 322.0), Point(256.0, 500.0);
    assert Enlarged(Corner(s, 1, 0), 1.0) == a && Enlarged(Corner(s, 1, 1), 1.0) == b;
    assert Part(256.0, 256.0, t) == 256.0 && Part(322.0, 500.0, t) == 330.5;
    hide Part, Corner, Enlarged;
    assert OnPieceOf(q, s, 1.0, 1, 0, t);
    hide OnPieceOf;
    assert s in MarkSymmetry.SEOUL_SIDE_MARK.segments && OnSegment(q, s, 1.0);
  }

  /** For example: half a pixel beside the first stroke of the Seoul Side mark, which goes from (256, 322) to (256, 500). */
  lemma BesideTheFirstStroke(sqrt: real -> real)
    requires IsSqrt(sqrt)
    ensures MarkCoverage(sqrt, MarkSymmetry.SEOUL_SIDE_MARK, 1000, 256, 330) == 255
  {
    OnFirstStroke();
    var d := PixelIsShade(sqrt, MarkSymmetry.SEOUL_SIDE_MARK, 1000, 256, 330);
    hide MarkCoverage, OnMark;
    assert Squared(Point(256.5, 330.5), Point(256.0, 330.5)) == 0.25;
    if d > 0.5 { SquareMonotone(0.5, d); }
  }
}
