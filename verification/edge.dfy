/**
 The edge segment generator: the path that draws one side of a puzzle
 piece from `p1` to `p2` as a straight line, an outward tab or an inward
 tab.
 */
module Edge {
  import opened Geometry
  import opened Path

  datatype EdgeType = Flat | TabOut | TabIn

  /** How far a tab's Bézier control points stand off the edge, in piece
      units. The curve itself reaches three quarters of this far
      (`TabCurvePeak`). */
  const TabSize: real := 20.0
  /** Length of the Bézier handles, as a fraction of half the tab width. */
  const CurveHandleFactor: real := 0.55
  /** The share of the edge that the curved tab occupies. */
  const TabWidthRatio: real := 0.4

  /** The share of the edge taken by each straight lead-in and lead-out. */
  const LeadFraction: real := (1.0 - TabWidthRatio) / 2.0
  /** The share of the edge spanned by each Bézier handle along the edge. */
  const HandleFraction: real := TabWidthRatio * CurveHandleFactor / 2.0

  /** The edge type that mates with `kind` on the neighbouring piece. */
  function Opposite(kind: EdgeType): EdgeType {
    match kind
    case Flat => Flat
    case TabOut => TabIn
    case TabIn => TabOut
  }

  /** A flat edge, or one too short to hold a tab, is drawn as a line. */
  predicate DrawnFlat(kind: EdgeType, length: real) {
    kind == Flat || length < TabSize * 2.0
  }

  /** The signed distance of a tab's control points from the baseline. */
  function Bulge(kind: EdgeType): real {
    if kind == TabOut then TabSize else -TabSize
  }

  /** The commands that continue a path from `p1` to `p2` along an edge of
      the given type; `length` is the distance from `p1` to `p2`. */
  function EdgeSegment(p1: Point, p2: Point, length: real, kind: EdgeType): (r: seq<Command>)
    requires IsDistance(p1, p2, length)
    ensures forall i :: 0 <= i < |r| ==> IsDrawing(r[i])
    ensures DrawnFlat(kind, length) ==> r == [LineTo(p2)]
    ensures !DrawnFlat(kind, length) ==>
      |r| == 3 && r[0].LineTo? && r[1].CubicTo? && r[2] == LineTo(p2)
  {
    if DrawnFlat(kind, length) then
      [LineTo(p2)]
    else
      var dir := Direction(p1, p2, length);
      var perp := Normal(dir);
      var tabWidth := TabWidthRatio * length;
      var tabDepth := TabSize * (if kind == TabOut then 1.0 else -1.0);
      var segmentLength := (length - tabWidth) / 2.0;
      var a := Point(p1.x + dir.x * segmentLength, p1.y + dir.y * segmentLength);
      var b := Point(p2.x - dir.x * segmentLength, p2.y - dir.y * segmentLength);
      var handleLength := tabWidth * CurveHandleFactor / 2.0;
      var cp1 := Point(a.x + dir.x * handleLength + perp.x * tabDepth,
                       a.y + dir.y * handleLength + perp.y * tabDepth);
      var cp2 := Point(b.x - dir.x * handleLength + perp.x * tabDepth,
                       b.y - dir.y * handleLength + perp.y * tabDepth);
      [LineTo(a), CubicTo(cp1, cp2, b), LineTo(p2)]
  }

  /** Where every point of a tabbed edge sits in the frame of the edge: the
      curve starts and ends on the baseline, `LeadFraction` of the length in
      from each end, and both control points stand `Bulge(kind)` off the
      baseline, a handle's length further in. */
  lemma TabSegmentInFrame(p1: Point, p2: Point, length: real, kind: EdgeType)
    requires IsDistance(p1, p2, length) && !DrawnFlat(kind, length)
    ensures length > 0.0
    ensures var lead := LeadFraction * length;
            var handle := HandleFraction * length;
            EdgeSegment(p1, p2, length, kind) ==
              [ LineTo(FramePoint(p1, p2, length, lead, 0.0)),
                CubicTo(FramePoint(p1, p2, length, lead + handle, Bulge(kind)),
                        FramePoint(p1, p2, length, length - lead - handle, Bulge(kind)),
                        FramePoint(p1, p2, length, length - lead, 0.0)),
                LineTo(p2) ]
  {
    FrameEnds(p1, p2, length);
    var lead := LeadFraction * length;
    var handle := HandleFraction * length;
    var r := EdgeSegment(p1, p2, length, kind);
    var d := Direction(p1, p2, length);
    var segmentLength := (length - TabWidthRatio * length) / 2.0;
    var handleLength := TabWidthRatio * length * CurveHandleFactor / 2.0;
    assert segmentLength == lead;
    assert handleLength == handle;
    assert r[0] == LineTo(FramePoint(p1, p2, length, lead, 0.0));
    assert r[1].to == FramePoint(p1, p2, length, length - lead, 0.0);
    assert r[1].c1 == FramePoint(p1, p2, length, lead + handle, Bulge(kind));
    assert r[1].c2 == FramePoint(p1, p2, length, length - lead - handle, Bulge(kind));
  }

  /** The same facts read back as frame coordinates: the curve spans the
      middle `TabWidthRatio` of the edge on the baseline, each control point
      stands exactly `TabSize` off the baseline (outwards along the normal
      for `TabOut`, inwards for `TabIn`) and a handle's length inside the
      curve's ends, and the handles do not cross. */
  lemma TabGeometry(p1: Point, p2: Point, length: real, kind: EdgeType)
    requires IsDistance(p1, p2, length) && !DrawnFlat(kind, length)
    ensures length > 0.0
    ensures var r := EdgeSegment(p1, p2, length, kind);
            var a := r[0].to;
            var b := r[1].to;
            && Offset(p1, p2, length, a) == 0.0
            && Offset(p1, p2, length, b) == 0.0
            && Along(p1, p2, length, a) == LeadFraction * length
            && length - Along(p1, p2, length, b) == LeadFraction * length
            && Along(p1, p2, length, b) - Along(p1, p2, length, a) == TabWidthRatio * length
    ensures var r := EdgeSegment(p1, p2, length, kind);
            var a := r[0].to;
            var b := r[1].to;
            var c1 := r[1].c1;
            var c2 := r[1].c2;
            && Offset(p1, p2, length, c1) == (if kind == TabOut then TabSize else -TabSize)
            && Offset(p1, p2, length, c2) == (if kind == TabOut then TabSize else -TabSize)
            && Along(p1, p2, length, c1) - Along(p1, p2, length, a) == HandleFraction * length
            && Along(p1, p2, length, b) - Along(p1, p2, length, c2) == HandleFraction * length
            && Along(p1, p2, length, a) < Along(p1, p2, length, c1)
            && Along(p1, p2, length, c1) <= Along(p1, p2, length, c2)
            && Along(p1, p2, length, c2) < Along(p1, p2, length, b)
  {
    TabSegmentInFrame(p1, p2, length, kind);
    var lead := LeadFraction * length;
    var handle := HandleFraction * length;
    FrameCoordinates(p1, p2, length, lead, 0.0);
    FrameCoordinates(p1, p2, length, length - lead, 0.0);
    FrameCoordinates(p1, p2, length, lead + handle, Bulge(kind));
    FrameCoordinates(p1, p2, length, length - lead - handle, Bulge(kind));
  }

  /** `q` reflected across the baseline of the edge. */
  function Mirror(p1: Point, p2: Point, length: real, q: Point): Point
    requires length > 0.0
  {
    FramePoint(p1, p2, length, Along(p1, p2, length, q), -Offset(p1, p2, length, q))
  }

  function MirrorCommand(p1: Point, p2: Point, length: real, c: Command): Command
    requires length > 0.0
  {
    match c
    case MoveTo(p) => MoveTo(Mirror(p1, p2, length, p))
    case LineTo(p) => LineTo(Mirror(p1, p2, length, p))
    case CubicTo(c1, c2, p) =>
      CubicTo(Mirror(p1, p2, length, c1), Mirror(p1, p2, length, c2), Mirror(p1, p2, length, p))
    case Close => Close
  }

  function MirrorPath(p1: Point, p2: Point, length: real, cmds: seq<Command>): (r: seq<Command>)
    requires length > 0.0
    ensures |r| == |cmds|
    ensures forall i :: 0 <= i < |cmds| ==> r[i] == MirrorCommand(p1, p2, length, cmds[i])
  {
    seq(|cmds|, i requires 0 <= i < |cmds| => MirrorCommand(p1, p2, length, cmds[i]))
  }

  lemma MirrorFramePoint(p1: Point, p2: Point, length: real, a: real, s: real)
    requires IsDistance(p1, p2, length) && length > 0.0
    ensures Mirror(p1, p2, length, FramePoint(p1, p2, length, a, s)) == FramePoint(p1, p2, length, a, -s)
  {
    FrameCoordinates(p1, p2, length, a, s);
  }

  lemma MirroredTab(p1: Point, p2: Point, length: real)
    requires IsDistance(p1, p2, length) && length >= TabSize * 2.0
    ensures EdgeSegment(p1, p2, length, TabIn) == MirrorPath(p1, p2, length, EdgeSegment(p1, p2, length, TabOut))
  {
    var rOut := EdgeSegment(p1, p2, length, TabOut);
    var rIn := EdgeSegment(p1, p2, length, TabIn);
    var m := MirrorPath(p1, p2, length, rOut);
    TabSegmentInFrame(p1, p2, length, TabOut);
    TabSegmentInFrame(p1, p2, length, TabIn);
    var lead := LeadFraction * length;
    var handle := HandleFraction * length;
    FrameEnds(p1, p2, length);
    MirrorFramePoint(p1, p2, length, lead, 0.0);
    MirrorFramePoint(p1, p2, length, length - lead, 0.0);
    MirrorFramePoint(p1, p2, length, length, 0.0);
    MirrorFramePoint(p1, p2, length, lead + handle, TabSize);
    MirrorFramePoint(p1, p2, length, length - lead - handle, TabSize);
    assert m[0] == rIn[0];
    assert m[1] == rIn[1];
    assert m[2] == rIn[2];
  }

  /** An indented tab is the protruding tab reflected across the baseline:
      the straight parts and the curve's ends coincide, only the control
      points change side. On an edge too short for a tab both are the same
      line. */
  lemma TabInMirrorsTabOut(p1: Point, p2: Point, length: real)
    requires IsDistance(p1, p2, length)
    ensures length < TabSize * 2.0 ==>
      EdgeSegment(p1, p2, length, TabIn) == EdgeSegment(p1, p2, length, TabOut)
    ensures length >= TabSize * 2.0 ==>
      EdgeSegment(p1, p2, length, TabIn) == MirrorPath(p1, p2, length, EdgeSegment(p1, p2, length, TabOut))
    ensures length >= TabSize * 2.0 ==>
      var rOut := EdgeSegment(p1, p2, length, TabOut);
      var rIn := EdgeSegment(p1, p2, length, TabIn);
      rIn[0] == rOut[0] && rIn[2] == rOut[2] && rIn[1].to == rOut[1].to
      && rIn[1].c1 != rOut[1].c1 && rIn[1].c2 != rOut[1].c2
  {
    if length >= TabSize * 2.0 {
      MirroredTab(p1, p2, length);
      TabGeometry(p1, p2, length, TabOut);
      TabGeometry(p1, p2, length, TabIn);
      TabSegmentInFrame(p1, p2, length, TabOut);
      TabSegmentInFrame(p1, p2, length, TabIn);
    }
  }

  /** `back`, drawn from where `forth` ends, runs along the same line and
      curve pieces in the opposite order and direction, back to `start`. */
  predicate Retraces(back: seq<Command>, forth: seq<Command>, start: Point) {
    || (|forth| == 1 && forth[0].LineTo? && back == [LineTo(start)])
    || (&& |forth| == 3 && forth[0].LineTo? && forth[1].CubicTo? && forth[2].LineTo?
        && back == [LineTo(forth[1].to), CubicTo(forth[1].c2, forth[1].c1, forth[0].to), LineTo(start)])
  }

  lemma DistanceSymmetric(p1: Point, p2: Point, length: real)
    requires IsDistance(p1, p2, length)
    ensures IsDistance(p2, p1, length)
  {
    assert Sq(p1.x - p2.x) == Sq(p2.x - p1.x);
    assert Sq(p1.y - p2.y) == Sq(p2.y - p1.y);
  }

  /** Two pieces interlock along a shared edge exactly when one side's edge,
      drawn in its own clockwise direction, retraces the other's: that holds
      if and only if the edge types are opposite (`TabOut` against `TabIn`,
      or both `Flat`), or the edge is too short to carry a tab at all. */
  lemma EdgesInterlock(p1: Point, p2: Point, length: real, k1: EdgeType, k2: EdgeType)
    requires IsDistance(p1, p2, length)
    ensures IsDistance(p2, p1, length)
    ensures Retraces(EdgeSegment(p2, p1, length, k2), EdgeSegment(p1, p2, length, k1), p1)
        <==> (length < TabSize * 2.0 || k2 == Opposite(k1))
  {
    DistanceSymmetric(p1, p2, length);
    var forth := EdgeSegment(p1, p2, length, k1);
    var back := EdgeSegment(p2, p1, length, k2);
    if length >= TabSize * 2.0 && k1 != Flat && k2 != Flat {
      TabSegmentInFrame(p1, p2, length, k1);
      TabSegmentInFrame(p2, p1, length, k2);
      var lead := LeadFraction * length;
      var handle := HandleFraction * length;
      FrameReversed(p1, p2, length, lead, 0.0);
      FrameReversed(p1, p2, length, length - lead, 0.0);
      FrameReversed(p1, p2, length, lead + handle, Bulge(k2));
      FrameReversed(p1, p2, length, length - lead - handle, Bulge(k2));
      assert length - (length - lead) == lead;
      assert length - (length - lead - handle) == lead + handle;
      assert back[1].c1 == FramePoint(p1, p2, length, length - lead - handle, -Bulge(k2));
      if k2 == k1 {
        FrameCoordinates(p1, p2, length, length - lead - handle, Bulge(k1));
        FrameCoordinates(p1, p2, length, length - lead - handle, -Bulge(k1));
        assert back[1].c1 != forth[1].c2;
      }
    }
  }

  /** Moving both ends of an edge moves its whole segment with them. */
  lemma EdgeSegmentTranslated(p1: Point, p2: Point, length: real, kind: EdgeType, v: Point)
    requires IsDistance(p1, p2, length)
    ensures IsDistance(Translate(p1, v), Translate(p2, v), length)
    ensures EdgeSegment(Translate(p1, v), Translate(p2, v), length, kind)
         == TranslatePath(EdgeSegment(p1, p2, length, kind), v)
  {
    var q1 := Translate(p1, v);
    var q2 := Translate(p2, v);
    assert q2.x - q1.x == p2.x - p1.x && q2.y - q1.y == p2.y - p1.y;
    if !DrawnFlat(kind, length) {
      TabSegmentInFrame(p1, p2, length, kind);
      TabSegmentInFrame(q1, q2, length, kind);
      var lead := LeadFraction * length;
      var handle := HandleFraction * length;
      FrameTranslated(p1, p2, length, lead, 0.0, v);
      FrameTranslated(p1, p2, length, length - lead, 0.0, v);
      FrameTranslated(p1, p2, length, lead + handle, Bulge(kind), v);
      FrameTranslated(p1, p2, length, length - lead - handle, Bulge(kind), v);
    }
  }

  lemma BulgeBlend(t: real, d: real)
    ensures var u := 1.0 - t;
            u * u * u * 0.0 + 3.0 * u * u * t * d + 3.0 * u * t * t * d + t * t * t * 0.0
              == 3.0 * t * (1.0 - t) * d
  {
    var u := 1.0 - t;
    assert 3.0 * u * u * t * d + 3.0 * u * t * t * d == 3.0 * u * t * (u + t) * d;
  }

  /** Along the tab's curve, the distance from the baseline is
      `3 t (1 - t)` times the control points' offset: zero at both ends of
      the curve, largest in the middle. */
  lemma TabCurveOffset(p1: Point, p2: Point, length: real, kind: EdgeType, t: real)
    requires IsDistance(p1, p2, length) && !DrawnFlat(kind, length)
    ensures length > 0.0
    ensures var r := EdgeSegment(p1, p2, length, kind);
            Offset(p1, p2, length, CurvePoint(r[0].to, r[1].c1, r[1].c2, r[1].to, t))
              == 3.0 * t * (1.0 - t) * Bulge(kind)
  {
    var r := EdgeSegment(p1, p2, length, kind);
    TabGeometry(p1, p2, length, kind);
    CurveOffset(p1, p2, length, r[0].to, r[1].c1, r[1].c2, r[1].to, t);
    BulgeBlend(t, Bulge(kind));
  }

  lemma PeakFactor(t: real)
    requires 0.0 <= t <= 1.0
    ensures 0.0 <= 3.0 * t * (1.0 - t) <= 0.75
  {
    var u := 1.0 - t;
    assert 0.0 <= t * u by { ProductNonnegative(t, u); }
    assert 0.75 - 3.0 * t * u == 3.0 * Sq(t - 0.5);
    assert 0.0 <= Sq(t - 0.5) by { ProductNonnegative(t - 0.5, t - 0.5); }
  }

  lemma ProductNonnegative(a: real, b: real)
    requires (0.0 <= a && 0.0 <= b) || (a <= 0.0 && b <= 0.0)
    ensures 0.0 <= a * b
  {}

  lemma PeakBounds(off: real, t: real, kind: EdgeType)
    requires 0.0 <= t <= 1.0 && off == 3.0 * t * (1.0 - t) * Bulge(kind)
    ensures t == 0.5 ==> off == 0.75 * Bulge(kind)
    ensures kind == TabOut ==> 0.0 <= off <= 0.75 * TabSize
    ensures kind == TabIn ==> -0.75 * TabSize <= off <= 0.0
  {
    PeakFactor(t);
    var f := 3.0 * t * (1.0 - t);
    assert off == f * Bulge(kind);
  }

  /** The drawn tab reaches only three quarters of `TabSize` from the
      baseline: exactly that far at the middle of the curve, and never
      further anywhere on it, outwards for a tab out and inwards for a tab
      in. */
  lemma TabCurvePeak(p1: Point, p2: Point, length: real, kind: EdgeType, t: real)
    requires IsDistance(p1, p2, length) && !DrawnFlat(kind, length) && 0.0 <= t <= 1.0
    ensures length > 0.0
    ensures var r := EdgeSegment(p1, p2, length, kind);
            var off := Offset(p1, p2, length, CurvePoint(r[0].to, r[1].c1, r[1].c2, r[1].to, t));
            && (t == 0.5 ==> off == 0.75 * Bulge(kind))
            && (kind == TabOut ==> 0.0 <= off <= 0.75 * TabSize)
            && (kind == TabIn ==> -0.75 * TabSize <= off <= 0.0)
  {
    var r := EdgeSegment(p1, p2, length, kind);
    TabCurveOffset(p1, p2, length, kind, t);
    PeakBounds(Offset(p1, p2, length, CurvePoint(r[0].to, r[1].c1, r[1].c2, r[1].to, t)), t, kind);
  }

  /** Drawn backwards with the same kind, a tab bulges to the other side of
      the line: its control points stand `Bulge(kind)` off the baseline in
      the forward edge's frame going forwards, and `-Bulge(kind)` going
      backwards. */
  lemma ReversedTabBulgesOpposite(p1: Point, p2: Point, length: real, kind: EdgeType)
    requires IsDistance(p1, p2, length) && !DrawnFlat(kind, length)
    ensures length > 0.0 && IsDistance(p2, p1, length)
    ensures var forth := EdgeSegment(p1, p2, length, kind);
            && Offset(p1, p2, length, forth[1].c1) == Bulge(kind)
            && Offset(p1, p2, length, forth[1].c2) == Bulge(kind)
    ensures var back := EdgeSegment(p2, p1, length, kind);
            && Offset(p1, p2, length, back[1].c1) == -Bulge(kind)
            && Offset(p1, p2, length, back[1].c2) == -Bulge(kind)
  {
    DistanceSymmetric(p1, p2, length);
    TabGeometry(p1, p2, length, kind);
    TabSegmentInFrame(p2, p1, length, kind);
    var lead := LeadFraction * length;
    var handle := HandleFraction * length;
    FrameReversed(p1, p2, length, lead + handle, Bulge(kind));
    FrameReversed(p1, p2, length, length - lead - handle, Bulge(kind));
    FrameCoordinates(p1, p2, length, length - (lead + handle), -Bulge(kind));
    FrameCoordinates(p1, p2, length, length - (length - lead - handle), -Bulge(kind));
  }
}
