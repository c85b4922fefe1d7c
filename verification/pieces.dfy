/**
 The seed pieces and what makes neighbours compatible.

 When pieces are placed edge to edge on a grid of `w × h` cells, a piece's
 right side meets the left side of the piece to its right, and its bottom
 side the top side of the piece below it; each piece draws its own outline
 clockwise, so a shared edge is drawn twice, once in each direction. The
 seed pieces start apart on the page (their corners are 120 units apart and
 the pieces 100 wide), so they meet only once dragged together.
 */
module Pieces {
  import opened Geometry
  import opened Path
  import opened Edge
  import opened Outline

  /** One entry of the seed table: edges, label text, initial screen
      position of the wrapper and fill colour. */
  datatype PieceConfig = PieceConfig(
    id: nat,
    edges: PieceEdges,
    labelText: string,
    initialX: int,
    initialY: int,
    color: string)

  /** The four pieces the page starts with, in table order. */
  function Seed(): (s: seq<PieceConfig>)
    ensures |s| == 4
    ensures forall i :: 0 <= i < |s| ==> s[i].id == i + 1
  {
    [
    PieceConfig(1, PieceEdges(Flat, TabOut, TabOut, Flat), "R1, C1", 50, 50, "coral"),
    PieceConfig(2, PieceEdges(Flat, Flat, TabIn, TabIn), "R1, C2", 170, 50, "lightblue"),
    PieceConfig(3, PieceEdges(TabIn, TabOut, Flat, Flat), "R2, C1", 50, 170, "lightgreen"),
    PieceConfig(4, PieceEdges(TabOut, Flat, Flat, TabIn), "R2, C2", 170, 170, "khaki")
    ]
  }

  /** `b` can sit to the right of `a`: a tab meets a socket, flat meets flat. */
  predicate FitsRightOf(a: PieceEdges, b: PieceEdges) {
    b.left == Opposite(a.right)
  }

  /** `b` can sit below `a`. */
  predicate FitsBelow(a: PieceEdges, b: PieceEdges) {
    b.top == Opposite(a.bottom)
  }

  /** A non-empty grid of pieces, every row as long as the first. */
  predicate Rectangular(g: seq<seq<PieceEdges>>) {
    |g| > 0 && forall r :: 0 <= r < |g| ==> |g[r]| == |g[0]|
  }

  /** The piece in row `r`, column `c` has a neighbour to its right, and
      that neighbour fits. */
  predicate RightFitsAt(g: seq<seq<PieceEdges>>, r: int, c: int) {
    0 <= r < |g| && 0 <= c < |g[r]| - 1 && FitsRightOf(g[r][c], g[r][c + 1])
  }

  /** The piece in row `r`, column `c` has a neighbour below it, and that
      neighbour fits. */
  predicate LowerFitsAt(g: seq<seq<PieceEdges>>, r: int, c: int) {
    0 <= r < |g| - 1 && 0 <= c < |g[r]| && c < |g[r + 1]| && FitsBelow(g[r][c], g[r + 1][c])
  }

  /** Every pair of horizontal and vertical neighbours fits. */
  predicate Compatible(g: seq<seq<PieceEdges>>) {
    && Rectangular(g)
    && (forall r, c :: 0 <= r < |g| && 0 <= c < |g[r]| - 1 ==> RightFitsAt(g, r, c))
    && (forall r, c :: 0 <= r < |g| - 1 && 0 <= c < |g[r]| ==> LowerFitsAt(g, r, c))
  }

  /** The outer border of the grid is flat all round. */
  predicate Framed(g: seq<seq<PieceEdges>>)
    requires Rectangular(g)
  {
    && (forall c :: 0 <= c < |g[0]| ==> g[0][c].top == Flat)
    && (var last := g[|g| - 1]; forall c :: 0 <= c < |last| ==> last[c].bottom == Flat)
    && (forall r :: 0 <= r < |g| && |g[r]| > 0 ==> g[r][0].left == Flat)
    && (forall r :: 0 <= r < |g| && |g[r]| > 0 ==> g[r][|g[r]| - 1].right == Flat)
  }

  /** The seed table read as the 2 × 2 grid its labels name. */
  function SeedGrid(): (g: seq<seq<PieceEdges>>)
    ensures Rectangular(g) && |g| == 2 && |g[0]| == 2
  {
    var s := Seed();
    [[s[0].edges, s[1].edges], [s[2].edges, s[3].edges]]
  }

  /** The seed table's promise: tab against socket on all four inner edges,
      and flat edges round the border, so the four pieces assemble into a
      rectangle. */
  lemma SeedIsCompatible()
    ensures Compatible(SeedGrid()) && Framed(SeedGrid())
    ensures var s := Seed(); forall i, j :: 0 <= i < j < |s| ==> s[i].id != s[j].id
  {}

  /** With `b` placed one cell to the right of `a`, the left side of `b`
      retraces the right side of `a` exactly when the two fit, or the
      pieces are too short for tabs. */
  lemma RightNeighbourInterlocks(w: real, h: real, a: PieceEdges, b: PieceEdges)
    requires w >= 0.0 && h >= 0.0
    ensures Retraces(TranslatePath(SideSegment(w, h, b, Left), Point(w, 0.0)),
                     SideSegment(w, h, a, Right), Point(w, 0.0))
        <==> (h < TabSize * 2.0 || FitsRightOf(a, b))
  {
    var v := Point(w, 0.0);
    SideIsDistance(w, h, Left);
    SideIsDistance(w, h, Right);
    EdgeSegmentTranslated(Point(0.0, h), Origin, h, b.left, v);
    assert Translate(Point(0.0, h), v) == Point(w, h);
    assert Translate(Origin, v) == Point(w, 0.0);
    EdgesInterlock(Point(w, 0.0), Point(w, h), h, a.right, b.left);
  }

  /** With `b` placed one cell below `a`, the top side of `b` retraces the
      bottom side of `a` exactly when the two fit, or the pieces are too
      narrow for tabs. */
  lemma LowerNeighbourInterlocks(w: real, h: real, a: PieceEdges, b: PieceEdges)
    requires w >= 0.0 && h >= 0.0
    ensures Retraces(TranslatePath(SideSegment(w, h, b, Top), Point(0.0, h)),
                     SideSegment(w, h, a, Bottom), Point(w, h))
        <==> (w < TabSize * 2.0 || FitsBelow(a, b))
  {
    var v := Point(0.0, h);
    SideIsDistance(w, h, Top);
    SideIsDistance(w, h, Bottom);
    EdgeSegmentTranslated(Origin, Point(w, 0.0), w, b.top, v);
    assert Translate(Origin, v) == Point(0.0, h);
    assert Translate(Point(w, 0.0), v) == Point(w, h);
    EdgesInterlock(Point(w, h), Point(0.0, h), w, a.bottom, b.top);
  }

  /** In a compatible grid of `w × h` pieces placed edge to edge, each at
      its cell's corner, every shared edge is drawn by the two neighbours along the
      same line and curve. */
  lemma CompatibleGridInterlocks(g: seq<seq<PieceEdges>>, w: real, h: real)
    requires Compatible(g) && w >= 0.0 && h >= 0.0
    ensures forall r, c :: 0 <= r < |g| && 0 <= c < |g[r]| - 1 ==>
      Retraces(TranslatePath(SideSegment(w, h, g[r][c + 1], Left), Point(w, 0.0)),
               SideSegment(w, h, g[r][c], Right), Point(w, 0.0))
    ensures forall r, c :: 0 <= r < |g| - 1 && 0 <= c < |g[r]| ==>
      Retraces(TranslatePath(SideSegment(w, h, g[r + 1][c], Top), Point(0.0, h)),
               SideSegment(w, h, g[r][c], Bottom), Point(w, h))
  {
    forall r, c | 0 <= r < |g| && 0 <= c < |g[r]| - 1
      ensures Retraces(TranslatePath(SideSegment(w, h, g[r][c + 1], Left), Point(w, 0.0)),
                       SideSegment(w, h, g[r][c], Right), Point(w, 0.0))
    {
      assert RightFitsAt(g, r, c);
      RightNeighbourInterlocks(w, h, g[r][c], g[r][c + 1]);
    }
    forall r, c | 0 <= r < |g| - 1 && 0 <= c < |g[r]|
      ensures Retraces(TranslatePath(SideSegment(w, h, g[r + 1][c], Top), Point(0.0, h)),
                       SideSegment(w, h, g[r][c], Bottom), Point(w, h))
    {
      assert LowerFitsAt(g, r, c);
      LowerNeighbourInterlocks(w, h, g[r][c], g[r + 1][c]);
    }
  }

  /** The seed pieces, drawn at the source's size and placed edge to edge,
      interlock on all four inner edges. */
  lemma SeedNeighboursInterlock()
    ensures var g := SeedGrid();
            && Retraces(TranslatePath(SideSegment(PieceWidth, PieceHeight, g[0][1], Left), Point(PieceWidth, 0.0)),
                        SideSegment(PieceWidth, PieceHeight, g[0][0], Right), Point(PieceWidth, 0.0))
            && Retraces(TranslatePath(SideSegment(PieceWidth, PieceHeight, g[1][1], Left), Point(PieceWidth, 0.0)),
                        SideSegment(PieceWidth, PieceHeight, g[1][0], Right), Point(PieceWidth, 0.0))
            && Retraces(TranslatePath(SideSegment(PieceWidth, PieceHeight, g[1][0], Top), Point(0.0, PieceHeight)),
                        SideSegment(PieceWidth, PieceHeight, g[0][0], Bottom), Point(PieceWidth, PieceHeight))
            && Retraces(TranslatePath(SideSegment(PieceWidth, PieceHeight, g[1][1], Top), Point(0.0, PieceHeight)),
                        SideSegment(PieceWidth, PieceHeight, g[0][1], Bottom), Point(PieceWidth, PieceHeight))
  {
    var g := SeedGrid();
    assert FitsRightOf(g[0][0], g[0][1]) && FitsRightOf(g[1][0], g[1][1]);
    assert FitsBelow(g[0][0], g[1][0]) && FitsBelow(g[0][1], g[1][1]);
    RightNeighbourInterlocks(PieceWidth, PieceHeight, g[0][0], g[0][1]);
    RightNeighbourInterlocks(PieceWidth, PieceHeight, g[1][0], g[1][1]);
    LowerNeighbourInterlocks(PieceWidth, PieceHeight, g[0][0], g[1][0]);
    LowerNeighbourInterlocks(PieceWidth, PieceHeight, g[0][1], g[1][1]);
  }

  /** The right side of a piece of the source's size with a tab out. */
  lemma RightTabOutAtSourceSize()
    ensures SideTabPath(PieceWidth, PieceHeight, Right, TabOut) == [
      LineTo(Point(100.0, 30.0)),
      CubicTo(Point(120.0, 41.0), Point(120.0, 59.0), Point(100.0, 70.0)),
      LineTo(Point(100.0, 100.0))]
  {
    assert LeadFraction == 0.3 && HandleFraction == 0.11;
  }

  /** The bottom side of a piece of the source's size with a tab out. */
  lemma BottomTabOutAtSourceSize()
    ensures SideTabPath(PieceWidth, PieceHeight, Bottom, TabOut) == [
      LineTo(Point(70.0, 100.0)),
      CubicTo(Point(59.0, 120.0), Point(41.0, 120.0), Point(30.0, 100.0)),
      LineTo(Point(0.0, 100.0))]
  {
    assert LeadFraction == 0.3 && HandleFraction == 0.11;
  }

  /** The outline of the first seed piece at the source's size, point by
      point: flat top, a tab out on the right, a tab out on the bottom,
      flat left. */
  lemma FirstSeedOutline()
    ensures DefaultOutline(Seed()[0].edges) == [
      MoveTo(Point(0.0, 0.0)),
      LineTo(Point(100.0, 0.0)),
      LineTo(Point(100.0, 30.0)),
      CubicTo(Point(120.0, 41.0), Point(120.0, 59.0), Point(100.0, 70.0)),
      LineTo(Point(100.0, 100.0)),
      LineTo(Point(70.0, 100.0)),
      CubicTo(Point(59.0, 120.0), Point(41.0, 120.0), Point(30.0, 100.0)),
      LineTo(Point(0.0, 100.0)),
      LineTo(Point(0.0, 0.0)),
      Close]
  {
    var e := Seed()[0].edges;
    assert e == PieceEdges(Flat, TabOut, TabOut, Flat);
    SideTabPoints(PieceWidth, PieceHeight, e, Right);
    SideTabPoints(PieceWidth, PieceHeight, e, Bottom);
    RightTabOutAtSourceSize();
    BottomTabOutAtSourceSize();
    assert SideSegment(PieceWidth, PieceHeight, e, Top) == [LineTo(Point(100.0, 0.0))];
    assert SideSegment(PieceWidth, PieceHeight, e, Left) == [LineTo(Origin)];
  }
}
