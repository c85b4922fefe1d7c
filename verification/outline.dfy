/**
 The outline assembler: one closed path around a `w × h` piece, made of the
 four edge segments drawn clockwise (top, right, bottom, left) from the
 top-left corner.
 */
module Outline {
  import opened Geometry
  import opened Path
  import opened Edge

  const PieceWidth: real := 100.0
  const PieceHeight: real := 100.0
  /** The margin the SVG canvas keeps around the piece box for the tabs. */
  const ViewBoxPad: real := TabSize * 1.2

  /** The edge type of each side of one piece. */
  datatype PieceEdges = PieceEdges(top: EdgeType, right: EdgeType, bottom: EdgeType, left: EdgeType)

  datatype Side = Top | Right | Bottom | Left

  /** The nominal box of a piece in its own coordinates. */
  function PieceBox(w: real, h: real): Box {
    Box(0.0, 0.0, w, h)
  }

  /** The canvas the outline is drawn on: the SVG view box
      `-pad -pad (w + 2 pad) (h + 2 pad)`, given as origin and size. */
  function ViewBox(w: real, h: real): (b: Box)
    ensures b == Pad(PieceBox(w, h), ViewBoxPad)
  {
    var minX := -ViewBoxPad;
    var minY := -ViewBoxPad;
    Box(minX, minY, minX + (w + 2.0 * ViewBoxPad), minY + (h + 2.0 * ViewBoxPad))
  }

  /** Where each side starts when the box is walked clockwise from (0,0). */
  function SideStart(w: real, h: real, side: Side): Point {
    match side
    case Top => Origin
    case Right => Point(w, 0.0)
    case Bottom => Point(w, h)
    case Left => Point(0.0, h)
  }

  function SideEnd(w: real, h: real, side: Side): Point {
    match side
    case Top => Point(w, 0.0)
    case Right => Point(w, h)
    case Bottom => Point(0.0, h)
    case Left => Origin
  }

  function SideLength(w: real, h: real, side: Side): real {
    if side == Top || side == Bottom then w else h
  }

  function KindOf(e: PieceEdges, side: Side): EdgeType {
    match side
    case Top => e.top
    case Right => e.right
    case Bottom => e.bottom
    case Left => e.left
  }

  /** Each side of a `w × h` box is as long as the side's nominal length. */
  lemma SideIsDistance(w: real, h: real, side: Side)
    requires w >= 0.0 && h >= 0.0
    ensures IsDistance(SideStart(w, h, side), SideEnd(w, h, side), SideLength(w, h, side))
  {
    assert Sq(0.0) == 0.0;
    assert Sq(0.0 - w) == Sq(w) && Sq(w - 0.0) == Sq(w) && Sq(w - w) == 0.0;
    assert Sq(0.0 - h) == Sq(h) && Sq(h - 0.0) == Sq(h) && Sq(h - h) == 0.0;
  }

  /** The path segment of one side. */
  function SideSegment(w: real, h: real, e: PieceEdges, side: Side): (r: seq<Command>)
    requires w >= 0.0 && h >= 0.0
    ensures |r| == 1 || |r| == 3
    ensures forall i :: 0 <= i < |r| ==> IsDrawing(r[i])
    ensures r[|r| - 1] == LineTo(SideEnd(w, h, side))
  {
    SideIsDistance(w, h, side);
    EdgeSegment(SideStart(w, h, side), SideEnd(w, h, side), SideLength(w, h, side), KindOf(e, side))
  }

  /** The outline of a piece: move to the top-left corner, draw the four
      sides clockwise, close. */
  function PieceOutline(w: real, h: real, e: PieceEdges): (r: seq<Command>)
    requires w >= 0.0 && h >= 0.0
    ensures 6 <= |r| <= 14
    ensures r[0] == MoveTo(Origin) && r[|r| - 1] == Close
    ensures forall i :: 0 < i < |r| - 1 ==> IsDrawing(r[i])
  {
    [MoveTo(Origin)]
      + SideSegment(w, h, e, Top)
      + SideSegment(w, h, e, Right)
      + SideSegment(w, h, e, Bottom)
      + SideSegment(w, h, e, Left)
      + [Close]
  }

  /** How many sides of a piece carry a tab, in or out. */
  function TabCount(e: PieceEdges): nat {
    (if e.top != Flat then 1 else 0) + (if e.right != Flat then 1 else 0)
    + (if e.bottom != Flat then 1 else 0) + (if e.left != Flat then 1 else 0)
  }

  /** On a piece whose sides are all long enough for a tab, each tabbed
      side adds a curve and a line to the four lines of a plain box. */
  lemma OutlineLength(w: real, h: real, e: PieceEdges)
    requires w >= TabSize * 2.0 && h >= TabSize * 2.0
    ensures |PieceOutline(w, h, e)| == 6 + 2 * TabCount(e)
  {
    var sT := SideSegment(w, h, e, Top);
    var sR := SideSegment(w, h, e, Right);
    var sB := SideSegment(w, h, e, Bottom);
    var sL := SideSegment(w, h, e, Left);
    TabsPointOutward(w, h, e, Top);
    TabsPointOutward(w, h, e, Right);
    TabsPointOutward(w, h, e, Bottom);
    TabsPointOutward(w, h, e, Left);
    assert |PieceOutline(w, h, e)| == 2 + |sT| + |sR| + |sB| + |sL|;
  }

  /** The outline of the source's fixed-size piece. */
  function DefaultOutline(e: PieceEdges): (r: seq<Command>)
    ensures |r| == 6 + 2 * TabCount(e)
    ensures r[0] == MoveTo(Origin) && r[|r| - 1] == Close
  {
    OutlineLength(PieceWidth, PieceHeight, e);
    PieceOutline(PieceWidth, PieceHeight, e)
  }

  // ---------------------------------------------------------------------
  // The path is closed and walks the corners clockwise

  /** Drawing the outline up to (not including) its final `Z` already brings
      the pen back to (0,0), the point the path started from, so the close
      command joins the left side to the top side without a gap. */
  lemma OutlineIsClosed(w: real, h: real, e: PieceEdges, pen: Pen)
    requires w >= 0.0 && h >= 0.0
    ensures var r := PieceOutline(w, h, e);
            && Run(pen, r[..|r| - 1]) == Pen(Origin, Origin)
            && Run(pen, r) == Pen(Origin, Origin)
  {
    var r := PieceOutline(w, h, e);
    var body := r[1..|r| - 1];
    var sL := SideSegment(w, h, e, Left);
    assert r[|r| - 2] == sL[|sL| - 1];
    assert r[..|r| - 1] == [MoveTo(Origin)] + body;
    RunConcat(pen, [MoveTo(Origin)], body);
    RunDrawing(Pen(Origin, Origin), body);
    assert r == r[..|r| - 1] + [Close];
    RunConcat(pen, r[..|r| - 1], [Close]);
  }

  /** After the first `n` commands of `r` the pen stands at `p`. */
  predicate PenReaches(r: seq<Command>, n: nat, p: Point) {
    n <= |r| && Run(Pen(Origin, Origin), r[..n]).current == p
  }

  /** `r` passes through the corners (w,0), (w,h), (0,h) and back to (0,0)
      in that order, after the commands at positions `n1 < n2 < n3 < n4`,
      and `n4` is where the closing command sits. */
  predicate Clockwise(r: seq<Command>, w: real, h: real, n1: nat, n2: nat, n3: nat, n4: nat) {
    && 1 < n1 < n2 < n3 < n4 && n4 == |r| - 1
    && PenReaches(r, n1, Point(w, 0.0))
    && PenReaches(r, n2, Point(w, h))
    && PenReaches(r, n3, Point(0.0, h))
    && PenReaches(r, n4, Origin)
  }

  lemma {:induction false} RunDrawingFrom(pre: seq<Command>, seg: seq<Command>)
    requires |seg| > 0
    requires forall i :: 0 <= i < |seg| ==> IsDrawing(seg[i])
    ensures IsDrawing(seg[|seg| - 1])
    ensures Run(Pen(Origin, Origin), pre + seg).current == seg[|seg| - 1].to
    ensures Run(Pen(Origin, Origin), pre + seg).subpathStart == Run(Pen(Origin, Origin), pre).subpathStart
  {
    RunConcat(Pen(Origin, Origin), pre, seg);
    RunDrawing(Run(Pen(Origin, Origin), pre), seg);
  }

  /** The outline starts at (0,0) and reaches each corner of the box in
      clockwise order, one side at a time. */
  lemma OutlineVisitsCornersClockwise(w: real, h: real, e: PieceEdges)
    requires w >= 0.0 && h >= 0.0
    ensures var r := PieceOutline(w, h, e);
            exists n1, n2, n3, n4 :: Clockwise(r, w, h, n1, n2, n3, n4)
  {
    var r := PieceOutline(w, h, e);
    var sT := SideSegment(w, h, e, Top);
    var sR := SideSegment(w, h, e, Right);
    var sB := SideSegment(w, h, e, Bottom);
    var sL := SideSegment(w, h, e, Left);
    var pre1 := [MoveTo(Origin)] + sT;
    var pre2 := pre1 + sR;
    var pre3 := pre2 + sB;
    var pre4 := pre3 + sL;
    assert r == pre4 + [Close];
    assert r[..|pre1|] == pre1 && r[..|pre2|] == pre2 && r[..|pre3|] == pre3 && r[..|pre4|] == pre4;
    RunDrawingFrom([MoveTo(Origin)], sT);
    RunDrawingFrom(pre1, sR);
    RunDrawingFrom(pre2, sB);
    RunDrawingFrom(pre3, sL);
    assert Clockwise(r, w, h, |pre1|, |pre2|, |pre3|, |pre4|);
  }

  // ---------------------------------------------------------------------
  // Where the tabs go

  /** The point `a` units along `side` from its start and `s` units off the
      box's edge, outwards, written with the side's axis directly. */
  function SidePoint(w: real, h: real, side: Side, a: real, s: real): Point {
    match side
    case Top => Point(a, -s)
    case Right => Point(w + s, a)
    case Bottom => Point(w - a, h + s)
    case Left => Point(-s, h - a)
  }

  lemma UnitRatios(x: real)
    requires x > 0.0
    ensures x / x == 1.0 && (x - 0.0) / x == 1.0 && (0.0 - x) / x == -1.0
    ensures 0.0 / x == 0.0 && (x - x) / x == 0.0
  {
    assert (0.0 - x) == -1.0 * x;
  }

  lemma TopFrame(w: real, a: real, s: real)
    requires w > 0.0
    ensures FramePoint(Origin, Point(w, 0.0), w, a, s) == Point(a, -s)
  {
    UnitRatios(w);
    assert Direction(Origin, Point(w, 0.0), w) == Point(1.0, 0.0);
    AxisFrame(Origin, Point(w, 0.0), w, a, s, 1.0, 0.0);
  }

  lemma RightFrame(w: real, h: real, a: real, s: real)
    requires h > 0.0
    ensures FramePoint(Point(w, 0.0), Point(w, h), h, a, s) == Point(w + s, a)
  {
    UnitRatios(h);
    assert Direction(Point(w, 0.0), Point(w, h), h) == Point(0.0, 1.0);
    AxisFrame(Point(w, 0.0), Point(w, h), h, a, s, 0.0, 1.0);
  }

  lemma BottomFrame(w: real, h: real, a: real, s: real)
    requires w > 0.0
    ensures FramePoint(Point(w, h), Point(0.0, h), w, a, s) == Point(w - a, h + s)
  {
    UnitRatios(w);
    assert Direction(Point(w, h), Point(0.0, h), w) == Point(-1.0, 0.0);
    AxisFrame(Point(w, h), Point(0.0, h), w, a, s, -1.0, 0.0);
  }

  lemma LeftFrame(h: real, a: real, s: real)
    requires h > 0.0
    ensures FramePoint(Point(0.0, h), Origin, h, a, s) == Point(-s, h - a)
  {
    UnitRatios(h);
    assert Direction(Point(0.0, h), Origin, h) == Point(0.0, -1.0);
    AxisFrame(Point(0.0, h), Origin, h, a, s, 0.0, -1.0);
  }

  /** With the sides walked clockwise, the frame of every side is the
      box's own axes, and the edge normal (the source's `perp`) points out
      of the box. */
  lemma SideFrame(w: real, h: real, side: Side, a: real, s: real)
    requires w >= 0.0 && h >= 0.0 && SideLength(w, h, side) > 0.0
    ensures FramePoint(SideStart(w, h, side), SideEnd(w, h, side), SideLength(w, h, side), a, s)
         == SidePoint(w, h, side, a, s)
  {
    match side
    case Top => TopFrame(w, a, s);
    case Right => RightFrame(w, h, a, s);
    case Bottom => BottomFrame(w, h, a, s);
    case Left => LeftFrame(h, a, s);
  }

  /** How far the box reaches inwards from `side`. */
  function Depth(w: real, h: real, side: Side): real {
    if side == Top || side == Bottom then h else w
  }

  /** A point off the middle of a side by a positive distance lies outside
      the box; by a negative distance smaller than the box's depth, inside. */
  lemma NormalPointsOutward(w: real, h: real, side: Side, a: real, s: real)
    requires w >= 0.0 && h >= 0.0
    requires 0.0 <= a <= SideLength(w, h, side)
    ensures s > 0.0 ==> !InBox(SidePoint(w, h, side, a, s), PieceBox(w, h))
    ensures (&& s < 0.0 && -s < Depth(w, h, side)
             && 0.0 < a < SideLength(w, h, side))
        ==> StrictlyInside(SidePoint(w, h, side, a, s), PieceBox(w, h))
  {}

  /** `SideFrame` for every point of the side at once. */
  lemma SideFrameAll(w: real, h: real, side: Side)
    requires w >= 0.0 && h >= 0.0 && SideLength(w, h, side) > 0.0
    ensures forall a: real, s: real ::
      FramePoint(SideStart(w, h, side), SideEnd(w, h, side), SideLength(w, h, side), a, s)
        == SidePoint(w, h, side, a, s)
  {
    forall a: real, s: real
      ensures FramePoint(SideStart(w, h, side), SideEnd(w, h, side), SideLength(w, h, side), a, s)
           == SidePoint(w, h, side, a, s)
    {
      SideFrame(w, h, side, a, s);
    }
  }

  /** The path of a tabbed side, with every point written in the box's own
      coordinates rather than in the edge's frame. */
  function SideTabPath(w: real, h: real, side: Side, kind: EdgeType): seq<Command> {
    var len := SideLength(w, h, side);
    var lead := LeadFraction * len;
    var handle := HandleFraction * len;
    [ LineTo(SidePoint(w, h, side, lead, 0.0)),
      CubicTo(SidePoint(w, h, side, lead + handle, Bulge(kind)),
              SidePoint(w, h, side, len - lead - handle, Bulge(kind)),
              SidePoint(w, h, side, len - lead, 0.0)),
      LineTo(SideEnd(w, h, side)) ]
  }

  /** The tab path of an edge, with every point written in the edge's
      frame (the shape `TabSegmentInFrame` proves `EdgeSegment` draws). */
  function FrameTab(p1: Point, p2: Point, len: real, kind: EdgeType): seq<Command>
    requires len > 0.0
  {
    var lead := LeadFraction * len;
    var handle := HandleFraction * len;
    [ LineTo(FramePoint(p1, p2, len, lead, 0.0)),
      CubicTo(FramePoint(p1, p2, len, lead + handle, Bulge(kind)),
              FramePoint(p1, p2, len, len - lead - handle, Bulge(kind)),
              FramePoint(p1, p2, len, len - lead, 0.0)),
      LineTo(p2) ]
  }

  /** A tabbed edge draws its frame tab path. */
  lemma EdgeIsFrameTab(p1: Point, p2: Point, len: real, kind: EdgeType)
    requires IsDistance(p1, p2, len) && !DrawnFlat(kind, len)
    ensures len > 0.0 && EdgeSegment(p1, p2, len, kind) == FrameTab(p1, p2, len, kind)
  {
    TabSegmentInFrame(p1, p2, len, kind);
  }

  /** On a side of the box, the frame tab path is `SideTabPath`. */
  lemma SideTabPathInFrame(w: real, h: real, side: Side, kind: EdgeType)
    requires w >= 0.0 && h >= 0.0 && !DrawnFlat(kind, SideLength(w, h, side))
    ensures var p1 := SideStart(w, h, side);
            var p2 := SideEnd(w, h, side);
            var len := SideLength(w, h, side);
            var lead := LeadFraction * len;
            var handle := HandleFraction * len;
            [ LineTo(FramePoint(p1, p2, len, lead, 0.0)),
              CubicTo(FramePoint(p1, p2, len, lead + handle, Bulge(kind)),
                      FramePoint(p1, p2, len, len - lead - handle, Bulge(kind)),
                      FramePoint(p1, p2, len, len - lead, 0.0)),
              LineTo(p2) ] == SideTabPath(w, h, side, kind)
  {
    SideFrameAll(w, h, side);
  }

  /** The edge of a tabbed side, drawn from its start corner to its end
      corner, is `SideTabPath`. */
  lemma SideEdgeIsTabPath(w: real, h: real, side: Side, kind: EdgeType)
    requires w >= 0.0 && h >= 0.0 && !DrawnFlat(kind, SideLength(w, h, side))
    ensures EdgeSegment(SideStart(w, h, side), SideEnd(w, h, side), SideLength(w, h, side), kind)
         == SideTabPath(w, h, side, kind)
  {
    SideIsDistance(w, h, side);
    EdgeIsFrameTab(SideStart(w, h, side), SideEnd(w, h, side), SideLength(w, h, side), kind);
    SideTabPathInFrame(w, h, side, kind);
  }

  /** A tabbed side draws exactly `SideTabPath`: the tab of the edge frame,
      placed on the box. */
  lemma SideTabPoints(w: real, h: real, e: PieceEdges, side: Side)
    requires w >= 0.0 && h >= 0.0 && !DrawnFlat(KindOf(e, side), SideLength(w, h, side))
    ensures SideSegment(w, h, e, side) == SideTabPath(w, h, side, KindOf(e, side))
  {
    SideEdgeIsTabPath(w, h, side, KindOf(e, side));
  }

  /** Where the control points of `SideTabPath` fall relative to the box:
      outside it for a tab out, strictly inside it for a tab in as long as
      the box is deeper than a tab. */
  lemma SideTabPathOutward(w: real, h: real, side: Side, kind: EdgeType)
    requires w >= 0.0 && h >= 0.0 && SideLength(w, h, side) >= TabSize * 2.0
    ensures var t := SideTabPath(w, h, side, kind);
            && (kind == TabOut ==> !InBox(t[1].c1, PieceBox(w, h)) && !InBox(t[1].c2, PieceBox(w, h)))
            && (kind == TabIn && Depth(w, h, side) > TabSize ==>
                  StrictlyInside(t[1].c1, PieceBox(w, h)) && StrictlyInside(t[1].c2, PieceBox(w, h)))
  {
    if kind != Flat {
      var len := SideLength(w, h, side);
      assert LeadFraction == 0.3 && HandleFraction == 0.11;
      var lead := LeadFraction * len;
      var handle := HandleFraction * len;
      assert 0.0 < lead + handle < len && 0.0 < len - lead - handle < len;
      NormalPointsOutward(w, h, side, lead + handle, Bulge(kind));
      NormalPointsOutward(w, h, side, len - lead - handle, Bulge(kind));
    }
  }

  /** A point of a side's frame at most `TabSize` off the side lies within
      `TabSize` of the box. */
  lemma SidePointNearBox(w: real, h: real, side: Side, a: real, s: real)
    requires w >= 0.0 && h >= 0.0 && 0.0 <= a <= SideLength(w, h, side)
    requires -TabSize <= s <= TabSize
    ensures InBox(SidePoint(w, h, side, a, s), Pad(PieceBox(w, h), TabSize))
  {}

  /** `SideTabPath` keeps within `TabSize` of the box. */
  lemma SideTabPathBounded(w: real, h: real, side: Side, kind: EdgeType)
    requires w >= 0.0 && h >= 0.0 && !DrawnFlat(kind, SideLength(w, h, side))
    ensures PathWithin(SideTabPath(w, h, side, kind), Pad(PieceBox(w, h), TabSize))
  {
    var len := SideLength(w, h, side);
    assert LeadFraction == 0.3 && HandleFraction == 0.11;
    var lead := LeadFraction * len;
    var handle := HandleFraction * len;
    assert 0.0 <= lead <= lead + handle <= len - lead - handle <= len - lead <= len;
    SidePointNearBox(w, h, side, lead, 0.0);
    SidePointNearBox(w, h, side, lead + handle, Bulge(kind));
    SidePointNearBox(w, h, side, len - lead - handle, Bulge(kind));
    SidePointNearBox(w, h, side, len - lead, 0.0);
    var t := SideTabPath(w, h, side, kind);
    var box := Pad(PieceBox(w, h), TabSize);
    assert CommandWithin(t[0], box);
    assert CommandWithin(t[1], box);
    assert CommandWithin(t[2], box);
  }

  /** A side draws a curve exactly when it has a tab and is long enough
      for one. The curve of a tab out has both control points outside the
      box; that of a tab in has both strictly inside the box whenever the
      box is deeper than a tab. */
  lemma TabsPointOutward(w: real, h: real, e: PieceEdges, side: Side)
    requires w >= 0.0 && h >= 0.0
    ensures var seg := SideSegment(w, h, e, side);
            var kind := KindOf(e, side);
            var long := SideLength(w, h, side) >= TabSize * 2.0;
            && (|seg| == 1 <==> (kind == Flat || !long))
            && (kind == TabOut && long ==>
                  |seg| == 3 && seg[1].CubicTo?
                  && !InBox(seg[1].c1, PieceBox(w, h)) && !InBox(seg[1].c2, PieceBox(w, h)))
            && (kind == TabIn && long && Depth(w, h, side) > TabSize ==>
                  |seg| == 3 && seg[1].CubicTo?
                  && StrictlyInside(seg[1].c1, PieceBox(w, h)) && StrictlyInside(seg[1].c2, PieceBox(w, h)))
  {
    if !DrawnFlat(KindOf(e, side), SideLength(w, h, side)) {
      SideTabPoints(w, h, e, side);
      SideTabPathOutward(w, h, side, KindOf(e, side));
    }
  }

  // ---------------------------------------------------------------------
  // Bounds

  /** Every box point of `inner` is a point of `outer`. */
  predicate BoxWithin(inner: Box, outer: Box) {
    outer.minX <= inner.minX && inner.maxX <= outer.maxX
    && outer.minY <= inner.minY && inner.maxY <= outer.maxY
  }

  lemma PathWithinWider(cmds: seq<Command>, inner: Box, outer: Box)
    requires PathWithin(cmds, inner) && BoxWithin(inner, outer)
    ensures PathWithin(cmds, outer)
  {
    forall i | 0 <= i < |cmds|
      ensures CommandWithin(cmds[i], outer)
    {
      assert CommandWithin(cmds[i], inner);
    }
  }

  lemma PathWithinConcat(a: seq<Command>, b: seq<Command>, box: Box)
    requires PathWithin(a, box) && PathWithin(b, box)
    ensures PathWithin(a + b, box)
  {
    forall i | 0 <= i < |a + b|
      ensures CommandWithin((a + b)[i], box)
    {
      if i < |a| {
        assert (a + b)[i] == a[i];
      } else {
        assert (a + b)[i] == b[i - |a|];
      }
    }
  }

  /** Every point of a side's segment stays within `TabSize` of the box. */
  lemma SideWithinPaddedBox(w: real, h: real, e: PieceEdges, side: Side)
    requires w >= 0.0 && h >= 0.0
    ensures PathWithin(SideSegment(w, h, e, side), Pad(PieceBox(w, h), TabSize))
  {
    var seg := SideSegment(w, h, e, side);
    if !DrawnFlat(KindOf(e, side), SideLength(w, h, side)) {
      SideTabPoints(w, h, e, side);
      SideTabPathBounded(w, h, side, KindOf(e, side));
    } else {
      assert CommandWithin(seg[0], Pad(PieceBox(w, h), TabSize));
    }
  }

  /** Every coordinate in the outline, control points included, lies in
      [-TabSize, w + TabSize] × [-TabSize, h + TabSize], and so inside the
      SVG view box, whose margin is 1.2 × TabSize. */
  lemma OutlineWithinViewBox(w: real, h: real, e: PieceEdges)
    requires w >= 0.0 && h >= 0.0
    ensures PathWithin(PieceOutline(w, h, e), Pad(PieceBox(w, h), TabSize))
    ensures BoxWithin(Pad(PieceBox(w, h), TabSize), ViewBox(w, h))
    ensures PathWithin(PieceOutline(w, h, e), ViewBox(w, h))
  {
    var box := Pad(PieceBox(w, h), TabSize);
    SideWithinPaddedBox(w, h, e, Top);
    SideWithinPaddedBox(w, h, e, Right);
    SideWithinPaddedBox(w, h, e, Bottom);
    SideWithinPaddedBox(w, h, e, Left);
    assert PathWithin([MoveTo(Origin)], box);
    assert PathWithin([Close], box);
    var p1 := [MoveTo(Origin)] + SideSegment(w, h, e, Top);
    PathWithinConcat([MoveTo(Origin)], SideSegment(w, h, e, Top), box);
    var p2 := p1 + SideSegment(w, h, e, Right);
    PathWithinConcat(p1, SideSegment(w, h, e, Right), box);
    var p3 := p2 + SideSegment(w, h, e, Bottom);
    PathWithinConcat(p2, SideSegment(w, h, e, Bottom), box);
    var p4 := p3 + SideSegment(w, h, e, Left);
    PathWithinConcat(p3, SideSegment(w, h, e, Left), box);
    PathWithinConcat(p4, [Close], box);
    PathWithinWider(PieceOutline(w, h, e), box, ViewBox(w, h));
  }
}
