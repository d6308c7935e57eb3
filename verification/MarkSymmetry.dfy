/**
 The Seoul Side mark is drawn left-right symmetric (src/brand/mark-renderer.ts:18-55): half of the roof
 is written down and the other half is its mirror image with the curve running the other way.
 */
module MarkSymmetry {
  import opened Raster

  // ---- the geometry ----

  const VIEWBOX_WIDTH := 1000.0

  function Mirror(p: Point): Point { Point(VIEWBOX_WIDTH - p.x, p.y) }

  const APEX := Point(500.0, 168.0)
  const APEX_CONTROL_1 := Point(424.0, 194.0)
  const APEX_CONTROL_2 := Point(332.0, 230.0)
  const EAVE := Point(248.0, 252.0)
  const EAVE_CONTROL_1 := Point(190.0, 266.0)
  const EAVE_CONTROL_2 := Point(118.0, 268.0)
  const TIP := Point(58.0, 206.0)

  const SEGMENTS: seq<Segment> := [
    Cubic(Mirror(TIP), Mirror(EAVE_CONTROL_2), Mirror(EAVE_CONTROL_1), Mirror(EAVE)),
    Cubic(Mirror(EAVE), Mirror(APEX_CONTROL_2), Mirror(APEX_CONTROL_1), APEX),
    Cubic(APEX, APEX_CONTROL_1, APEX_CONTROL_2, EAVE),
    Cubic(EAVE, EAVE_CONTROL_1, EAVE_CONTROL_2, TIP),
    Line(Point(256.0, 322.0), Point(256.0, 500.0)),
    Line(Point(378.0, 322.0), Point(378.0, 546.0)),
    Line(Point(500.0, 322.0), Point(500.0, 592.0)),
    Line(Point(622.0, 322.0), Point(622.0, 546.0)),
    Line(Point(744.0, 322.0), Point(744.0, 500.0))
  ]

  const SEOUL_SIDE_MARK := Geometry(VIEWBOX_WIDTH, 700.0, 26.0, SEGMENTS)

  /** The mirror image of a segment; a curve runs the other way, as the source writes it. */
  function MirrorSegment(s: Segment): Segment {
    match s
    case Line(a, b) => Line(Mirror(a), Mirror(b))
    case Cubic(p0, p1, p2, p3) => Cubic(Mirror(p3), Mirror(p2), Mirror(p1), Mirror(p0))
  }

  predicate MirrorClosed(segments: seq<Segment>) {
    forall s :: s in segments ==> MirrorSegment(s) in segments
  }

  lemma MarkIsMirrorClosed()
    ensures MirrorClosed(SEGMENTS)
  {
    forall s | s in SEGMENTS ensures MirrorSegment(s) in SEGMENTS {
      var i :| 0 <= i < |SEGMENTS| && SEGMENTS[i] == s;
      var j := if i < 4 then 3 - i else 12 - i;
      assert MirrorSegment(SEGMENTS[i]) == SEGMENTS[j];
    }
  }

  // ---- pieces in device coordinates ----

  function MirrorPiece(p: Piece, width: real): Piece {
    Piece(Point(width - p.a.x, p.a.y), Point(width - p.b.x, p.b.y))
  }

  function Backwards(p: Piece): Piece { Piece(p.b, p.a) }

  lemma MirrorProjection(p: Piece, width: real, px: real, py: real)
    ensures Projection(MirrorPiece(p, width), width - px, py) == Projection(p, px, py)
  {
    var dx, dy := p.b.x - p.a.x, p.b.y - p.a.y;
    NegatedDot(dx, dy, dx, dy);
    NegatedDot(px - p.a.x, py - p.a.y, dx, dy);
    assert (width - p.b.x) - (width - p.a.x) == -dx && (width - px) - (width - p.a.x) == -(px - p.a.x);
    hide Dot;
  }

  lemma NegatedDot(ux: real, uy: real, vx: real, vy: real)
    ensures Dot(-ux, uy, -vx, vy) == Dot(ux, uy, vx, vy)
  {
    assert (-ux) * (-vx) == ux * vx;
  }

  lemma MirrorAlong(a: real, t: real, d: real, width: real)
    ensures Along(width - a, t, -d) == width - Along(a, t, d)
  {
  }

  /** Mirroring the piece and the pixel centre together changes no distance. */
  lemma MirrorDistance(sqrt: real -> real, p: Piece, width: real, px: real, py: real)
    ensures DistanceTo(sqrt, MirrorPiece(p, width), width - px, py) == DistanceTo(sqrt, p, px, py)
  {
    var t := Projection(p, px, py);
    MirrorProjection(p, width, px, py);
    MirrorAlong(p.a.x, t, p.b.x - p.a.x, width);
    var ex, ey := px - Along(p.a.x, t, p.b.x - p.a.x), py - Along(p.a.y, t, p.b.y - p.a.y);
    NegatedDot(ex, ey, ex, ey);
    hide Projection, Along, Dot;
    assert (width - p.b.x) - (width - p.a.x) == -(p.b.x - p.a.x);
    assert (width - px) - (width - Along(p.a.x, t, p.b.x - p.a.x)) == -ex;
  }

  lemma BackwardsDot(ux: real, uy: real, dx: real, dy: real)
    ensures Dot(ux - dx, uy - dy, -dx, -dy) == Dot(dx, dy, dx, dy) - Dot(ux, uy, dx, dy)
    ensures Dot(-dx, -dy, -dx, -dy) == Dot(dx, dy, dx, dy)
  {
    assert (ux - dx) * -dx == dx * dx - ux * dx && (uy - dy) * -dy == dy * dy - uy * dy;
  }

  lemma Quotients(a: real, l: real)
    requires l > 0.0
    ensures (l - a) / l == 1.0 - a / l
  {
    var q := a / l;
    assert q * l == a;
    assert (1.0 - q) * l == l - q * l;
    Cancel((l - a) / l, 1.0 - q, l);
  }

  lemma Cancel(r: real, s: real, l: real)
    requires l != 0.0 && r * l == s * l
    ensures r == s
  {
    assert (r - s) * l == 0.0;
  }

  lemma LengthZero(dx: real, dy: real)
    requires Dot(dx, dy, dx, dy) <= 0.0
    ensures dx == 0.0 && dy == 0.0
  {
    SquareSign(dx, dx * dx);
    SquareSign(dy, dy * dy);
  }

  lemma ProductOfPositives(a: real, b: real, w: real)
    requires 0.0 < a && 0.0 < b && w == a * b
    ensures 0.0 < w
  {
  }

  lemma ProductOfNegatives(a: real, b: real, w: real)
    requires a < 0.0 && b < 0.0 && w == a * b
    ensures 0.0 < w
  {
  }

  lemma SquareSign(u: real, w: real)
    requires w == u * u
    ensures 0.0 <= w && (u != 0.0 ==> 0.0 < w)
  {
    if u < 0.0 {
      ProductOfNegatives(u, u, w);
    } else if u > 0.0 {
      ProductOfPositives(u, u, w);
    } else {
      assert w == 0.0;
    }
  }

  /** Clamped projection commutes with reversal, except on a piece of no length. */
  lemma BackwardsProjection(p: Piece, px: real, py: real)
    ensures p.a != p.b ==> Projection(Backwards(p), px, py) == 1.0 - Projection(p, px, py)
  {
    var dx, dy := p.b.x - p.a.x, p.b.y - p.a.y;
    BackwardsDot(px - p.a.x, py - p.a.y, dx, dy);
    assert px - p.b.x == (px - p.a.x) - dx && py - p.b.y == (py - p.a.y) - dy;
    assert p.a.x - p.b.x == -dx && p.a.y - p.b.y == -dy;
    var l := Dot(dx, dy, dx, dy);
    if l > 0.0 {
      Quotients(Dot(px - p.a.x, py - p.a.y, dx, dy), l);
    } else {
      LengthZero(dx, dy);
    }
    hide Dot;
  }

  lemma BackwardsAlong(a: real, t: real, b: real)
    ensures Along(b, 1.0 - t, a - b) == Along(a, t, b - a)
  {
  }

  lemma BackwardsDistance(sqrt: real -> real, p: Piece, px: real, py: real)
    ensures DistanceTo(sqrt, Backwards(p), px, py) == DistanceTo(sqrt, p, px, py)
  {
    var t := Projection(p, px, py);
    BackwardsProjection(p, px, py);
    BackwardsAlong(p.a.x, t, p.b.x);
    BackwardsAlong(p.a.y, t, p.b.y);
    hide Projection, Along, Dot;
  }

  lemma MirrorPixel(sqrt: real -> real, p: Piece, radius: real, width: nat, x: int, y: int)
    ensures PixelValue(sqrt, MirrorPiece(p, width as real), radius, width - 1 - x, y) == PixelValue(sqrt, p, radius, x, y)
    ensures PixelValue(sqrt, Backwards(MirrorPiece(p, width as real)), radius, width - 1 - x, y) == PixelValue(sqrt, p, radius, x, y)
  {
    MirrorDistance(sqrt, p, width as real, x as real + 0.5, y as real + 0.5);
    BackwardsDistance(sqrt, MirrorPiece(p, width as real), (width - 1 - x) as real + 0.5, y as real + 0.5);
    assert (width - 1 - x) as real + 0.5 == width as real - (x as real + 0.5);
    hide DistanceTo, ValueAt;
  }

  /** The pieces, as a set, are their own mirror image, up to direction. */
  predicate Balanced(pieces: seq<Piece>, width: real) {
    forall p :: p in pieces ==> MirrorPiece(p, width) in pieces || Backwards(MirrorPiece(p, width)) in pieces
  }

  lemma BalancedHalf(sqrt: real -> real, pieces: seq<Piece>, radius: real, width: nat, x: int, y: int)
    requires Balanced(pieces, width as real)
    ensures Coverage(sqrt, pieces, radius, x, y) <= Coverage(sqrt, pieces, radius, width - 1 - x, y)
  {
    CoverageIsMax(sqrt, pieces, radius, x, y);
    CoverageIsMax(sqrt, pieces, radius, width - 1 - x, y);
    hide PixelValue, Coverage;
    if Coverage(sqrt, pieces, radius, x, y) != 0 {
      var p :| p in pieces && PixelValue(sqrt, p, radius, x, y) == Coverage(sqrt, pieces, radius, x, y);
      MirrorPixel(sqrt, p, radius, width, x, y);
    }
  }

  lemma BalancedIsSymmetric(sqrt: real -> real, pieces: seq<Piece>, radius: real, width: nat, x: int, y: int)
    requires Balanced(pieces, width as real)
    ensures Coverage(sqrt, pieces, radius, x, y) == Coverage(sqrt, pieces, radius, width - 1 - x, y)
  {
    BalancedHalf(sqrt, pieces, radius, width, x, y);
    BalancedHalf(sqrt, pieces, radius, width, width - 1 - x, y);
    assert width - 1 - (width - 1 - x) == x;
    hide Coverage, Balanced;
  }

  // ---- flattening commutes with mirroring and reversal ----

  lemma MirrorMix(t: real, c0: real, c1: real, c2: real, c3: real)
    ensures var u := 1.0 - t;
            Mix(WeightsAt(u, t), VIEWBOX_WIDTH - c3, VIEWBOX_WIDTH - c2, VIEWBOX_WIDTH - c1, VIEWBOX_WIDTH - c0)
            == VIEWBOX_WIDTH - Mix(WeightsAt(t, u), c0, c1, c2, c3)
  {
    var u := 1.0 - t;
    SwappedWeights(t, u);
    WeightsSumToOne(t);
    MirrorWeighted(WeightsAt(t, u), c0, c1, c2, c3);
    SwappedMix(WeightsAt(t, u), VIEWBOX_WIDTH - c0, VIEWBOX_WIDTH - c1, VIEWBOX_WIDTH - c2, VIEWBOX_WIDTH - c3);
    hide WeightsAt, Mix;
  }

  lemma SwappedMix(w: Weights, c0: real, c1: real, c2: real, c3: real)
    ensures Mix(Weights(w.d, w.c, w.b, w.a), c3, c2, c1, c0) == Mix(w, c0, c1, c2, c3)
  {
  }

  lemma SwappedWeights(t: real, u: real)
    ensures var w := WeightsAt(t, u); WeightsAt(u, t) == Weights(w.d, w.c, w.b, w.a)
  {
    assert 3.0 * t * t * u == 3.0 * u * t * t && 3.0 * t * u * u == 3.0 * u * u * t;
  }

  lemma WeightsSumToOne(t: real)
    ensures var w := WeightsAt(t, 1.0 - t); w.a + w.b + w.c + w.d == 1.0
  {
    var u := 1.0 - t;
    assert u * u + 2.0 * u * t + t * t == 1.0;
    assert u * u * u + 3.0 * u * u * t + 3.0 * u * t * t + t * t * t == (u * u + 2.0 * u * t + t * t) * (u + t);
  }

  lemma MirrorWeighted(w: Weights, c0: real, c1: real, c2: real, c3: real)
    requires w.a + w.b + w.c + w.d == 1.0
    ensures Mix(w, VIEWBOX_WIDTH - c0, VIEWBOX_WIDTH - c1, VIEWBOX_WIDTH - c2, VIEWBOX_WIDTH - c3)
            == VIEWBOX_WIDTH - Mix(w, c0, c1, c2, c3)
  {
  }

  lemma BackwardsMix(t: real, c0: real, c1: real, c2: real, c3: real)
    ensures Mix(WeightsAt(1.0 - t, t), c3, c2, c1, c0) == Mix(WeightsAt(t, 1.0 - t), c0, c1, c2, c3)
  {
    SwappedWeights(t, 1.0 - t);
    SwappedMix(WeightsAt(t, 1.0 - t), c0, c1, c2, c3);
    hide WeightsAt, Mix;
  }

  /** The mirror image of a curve at 1 - t is the mirror image of the curve's point at t. */
  lemma MirrorCurvePoint(s: Segment, t: real)
    requires s.Cubic?
    ensures CurvePoint(MirrorSegment(s), 1.0 - t) == Mirror(CurvePoint(s, t))
  {
    MirrorMix(t, s.p0.x, s.p1.x, s.p2.x, s.p3.x);
    BackwardsMix(t, s.p0.y, s.p1.y, s.p2.y, s.p3.y);
    assert 1.0 - (1.0 - t) == t;
    hide WeightsAt, Mix;
  }

  lemma TurnedDot(dx: real, dy: real)
    ensures Dot(dx, dy, dx, dy) == Dot(dy, dx, dy, dx)
  {
  }

  lemma MirrorControl(sqrt: real -> real, p: Point, q: Point)
    ensures Distance(sqrt, Mirror(q), Mirror(p)) == Distance(sqrt, p, q)
  {
    var dx, dy := q.x - p.x, q.y - p.y;
    assert Mirror(p).x - Mirror(q).x == dx && Mirror(p).y - Mirror(q).y == -dy;
    NegatedDot(dy, dx, dy, dx);
    TurnedDot(dx, dy);
    TurnedDot(dx, -dy);
    hide Dot;
  }

  lemma MirrorSteps(sqrt: real -> real, s: Segment, scale: real)
    requires s.Cubic?
    ensures Steps(sqrt, MirrorSegment(s), scale) == Steps(sqrt, s, scale)
  {
    MirrorControl(sqrt, s.p0, s.p1);
    MirrorControl(sqrt, s.p1, s.p2);
    MirrorControl(sqrt, s.p2, s.p3);
    hide Distance;
  }

  lemma FromTheEnd(i: nat, n: nat)
    requires i <= n && n > 0
    ensures Parameter(n - i, n) == 1.0 - Parameter(i, n)
  {
    Quotients(i as real, n as real);
    assert (n - i) as real == n as real - i as real;
  }

  /** Flattening the mirrored curve gives the mirrored points in the opposite order. */
  lemma MirrorFlattened(sqrt: real -> real, s: Segment, scale: real, i: nat)
    requires s.Cubic? && i < |Flattened(sqrt, s, scale)|
    ensures |Flattened(sqrt, MirrorSegment(s), scale)| == |Flattened(sqrt, s, scale)|
    ensures Flattened(sqrt, MirrorSegment(s), scale)[|Flattened(sqrt, s, scale)| - 1 - i] == Mirror(Flattened(sqrt, s, scale)[i])
  {
    MirrorSteps(sqrt, s, scale);
    var n := Steps(sqrt, s, scale);
    assert n >= 8;
    FromTheEnd(i, n);
    MirrorCurvePoint(s, Parameter(i, n));
    hide Steps, CurvePoint;
  }

  // ---- from segments to pieces ----

  lemma MirrorScaled(p: Point, scale: real, width: real)
    requires VIEWBOX_WIDTH * scale == width
    ensures Scaled(Mirror(p), scale) == Point(width - Scaled(p, scale).x, Scaled(p, scale).y)
  {
    assert (VIEWBOX_WIDTH - p.x) * scale == VIEWBOX_WIDTH * scale - p.x * scale;
  }

  lemma MirrorPieceAt(points: seq<Point>, scale: real, width: real, i: nat)
    requires VIEWBOX_WIDTH * scale == width && i + 1 < |points|
    ensures MirrorPiece(PieceAt(points, scale, i), width) == Piece(Scaled(Mirror(points[i]), scale), Scaled(Mirror(points[i + 1]), scale))
  {
    MirrorScaled(points[i], scale, width);
    MirrorScaled(points[i + 1], scale, width);
    hide Scaled, Mirror;
  }

  /** The mirror image of piece i of a curve is drawn backwards, as piece n - 2 - i of the mirrored curve. */
  lemma MirrorCurvePiece(sqrt: real -> real, s: Segment, scale: real, width: real, i: nat)
    requires s.Cubic? && VIEWBOX_WIDTH * scale == width && i + 1 < |Flattened(sqrt, s, scale)|
    ensures Backwards(MirrorPiece(PieceAt(Flattened(sqrt, s, scale), scale, i), width))
            in PiecesOf(Flattened(sqrt, MirrorSegment(s), scale), scale)
  {
    var points, others := Flattened(sqrt, s, scale), Flattened(sqrt, MirrorSegment(s), scale);
    MirrorPieceAt(points, scale, width, i);
    MirrorFlattened(sqrt, s, scale, i);
    MirrorFlattened(sqrt, s, scale, i + 1);
    var j: nat := |points| - 2 - i;
    hide Flattened, MirrorSegment, MirrorPiece, Mirror, Scaled, PiecesOf;
    assert PieceAt(others, scale, j) == Backwards(MirrorPiece(PieceAt(points, scale, i), width));
    PiecesOfMembers(others, scale, PieceAt(others, scale, j));
  }

  lemma MirrorLinePiece(sqrt: real -> real, s: Segment, scale: real, width: real, i: nat)
    requires s.Line? && VIEWBOX_WIDTH * scale == width && i + 1 < |Flattened(sqrt, s, scale)|
    ensures MirrorPiece(PieceAt(Flattened(sqrt, s, scale), scale, i), width)
            in PiecesOf(Flattened(sqrt, MirrorSegment(s), scale), scale)
  {
    var points, others := Flattened(sqrt, s, scale), Flattened(sqrt, MirrorSegment(s), scale);
    MirrorPieceAt(points, scale, width, i);
    hide PiecesOf, Mirror, Scaled, MirrorPiece;
    assert PieceAt(others, scale, 0) == MirrorPiece(PieceAt(points, scale, i), width);
    PiecesOfMembers(others, scale, PieceAt(others, scale, 0));
  }

  lemma MirrorPieces(sqrt: real -> real, s: Segment, scale: real, width: real, p: Piece)
    requires VIEWBOX_WIDTH * scale == width
    requires p in PiecesOf(Flattened(sqrt, s, scale), scale)
    ensures var others := PiecesOf(Flattened(sqrt, MirrorSegment(s), scale), scale);
            MirrorPiece(p, width) in others || Backwards(MirrorPiece(p, width)) in others
  {
    var points := Flattened(sqrt, s, scale);
    PiecesOfMembers(points, scale, p);
    hide *;
    var i: nat :| i + 1 < |points| && PieceAt(points, scale, i) == p;
    if s.Cubic? {
      MirrorCurvePiece(sqrt, s, scale, width, i);
    } else {
      MirrorLinePiece(sqrt, s, scale, width, i);
    }
  }

  lemma MirrorClosedIsBalanced(sqrt: real -> real, segments: seq<Segment>, scale: real, width: real)
    requires VIEWBOX_WIDTH * scale == width && MirrorClosed(segments)
    ensures Balanced(Pieces(sqrt, segments, scale), width)
  {
    var pieces := Pieces(sqrt, segments, scale);
    hide Pieces, PiecesOf, Flattened, MirrorSegment;
    forall p | p in pieces
      ensures MirrorPiece(p, width) in pieces || Backwards(MirrorPiece(p, width)) in pieces
    {
      PieceOfSegment(sqrt, segments, scale, p);
      var s :| s in segments && p in PiecesOf(Flattened(sqrt, s, scale), scale);
      MirrorPieces(sqrt, s, scale, width, p);
      PieceOfSegment(sqrt, segments, scale, MirrorPiece(p, width));
      PieceOfSegment(sqrt, segments, scale, Backwards(MirrorPiece(p, width)));
    }
  }

  /** In every row of every rendering of the mark, pixel x equals pixel width - 1 - x. */
  lemma MarkIsSymmetric(sqrt: real -> real, widthPx: nat, x: int, y: int)
    requires widthPx > 0
    ensures MarkCoverage(sqrt, SEOUL_SIDE_MARK, widthPx, x, y) == MarkCoverage(sqrt, SEOUL_SIDE_MARK, widthPx, widthPx - 1 - x, y)
  {
    var scale := Scale(SEOUL_SIDE_MARK, widthPx);
    assert VIEWBOX_WIDTH * scale == widthPx as real;
    MarkIsMirrorClosed();
    MirrorClosedIsBalanced(sqrt, SEGMENTS, scale, widthPx as real);
    BalancedIsSymmetric(sqrt, Pieces(sqrt, SEGMENTS, scale), Radius(SEOUL_SIDE_MARK, widthPx), widthPx, x, y);
    hide Pieces, Coverage, Scale, Radius;
  }
}
