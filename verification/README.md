# Jigsaw piece outlines in Dafny

This project models the part of `script.js` that draws the outline of a
jigsaw piece. It proves what that drawing guarantees.

- **`Edge`** models `generateEdgeSegment`. One side of a piece runs from `p1`
  to `p2` and is one of three kinds: flat, a tab out, or a tab in (a socket).
  The function returns the SVG path commands for that side. The result is a
  single line, or a line, one cubic Bézier and a line.
- **`Outline`** models the path assembly in `createPuzzlePieceElement`:
  - the path starts with `M 0,0`;
  - it draws the top, right, bottom and left sides clockwise around the
    `w × h` box;
  - it closes with `Z`.
- **`Pieces`** models the seed table of four pieces and the comment under it,
  which says the pieces are compatible. It also states when two neighbouring
  pieces, placed edge to edge, fit.

The supporting modules are as follows:

- **`Geometry`** holds points, boxes and the local frame of an edge. The
  frame's axes are the unit direction from `p1` to `p2` and the source's
  `perp`, which is that direction turned a quarter turn counter-clockwise as
  drawn (SVG coordinates have y growing downwards; in y-up axes the same
  turn is clockwise). It points to the left of travel on screen, which is
  out of the box when the box is walked clockwise as drawn.
- **`Path`** holds the `M`/`L`/`C`/`Z` commands and the SVG pen. The pen
  gives "the path is closed" and "the path passes through this corner" a
  precise meaning.

Numbers are exact reals. The edge length, which the source computes with
`Math.sqrt`, is a parameter constrained to be the Euclidean distance
(`IsDistance`).

The geometry is stated in the edge frame. `FramePoint(p1, p2, len, a, s)` is
the point `a` units along the edge and `s` units along `perp`. `Along` and
`Offset` read those two coordinates back, and the frame lemmas prove that
this is a round trip both ways.

Two behaviours of the code are worth knowing:

- **Reversing an edge mirrors its tab.** `perp` turns with the drawing
  direction. An edge drawn from `p2` back to `p1` with the same kind
  therefore bulges to the other side of the line. The reversed edge retraces
  the forward one only with the opposite kind (tab out against tab in), or
  when the edge is too short for a tab (`Edge.EdgesInterlock`). Measured
  in the forward edge's frame, the reversed edge's control points stand
  `-Bulge(kind)` off the line where the forward ones stand `Bulge(kind)`
  (`Edge.ReversedTabBulgesOpposite`). This is why neighbouring pieces need
  opposite edge types, and the model follows the code here.
- **The tab is shallower than `TAB_SIZE`.** The comment on `TAB_SIZE` says
  it is how far the tab extends from the baseline. In the code it is how
  far the two Bézier control points stand off the baseline. Both control
  points sit at the same offset, so the drawn curve's offset is
  `3 t (1 - t) × TAB_SIZE`. That peaks at `0.75 × TAB_SIZE` (15 units) at
  the middle of the curve (`Edge.TabCurvePeak`). The model keeps the code's
  shape; a deeper tab would be a design change, not a fix.
- **The generator is modelled for any size.** The source calls it only with
  `PIECE_WIDTH = PIECE_HEIGHT = 100`. The model takes any `w, h >= 0`, and
  `Outline.DefaultOutline` fixes the source's size.

## Model

| member | source | states |
|---|---|---|
| `Edge.EdgeSegment` | script.js:24-75 | A flat edge, or one shorter than twice the tab size, draws exactly one line to `p2` whatever tab was asked for. Any other edge draws a line, one cubic curve and a line ending at `p2`. No command starts or closes a subpath. |
| `Edge.TabSegmentInFrame` | script.js:32-72 | In the edge's frame, the tab path has these exact points. The curve starts on the baseline 0.3 × length from `p1` and ends 0.3 × length before `p2`. Both control points stand `Bulge(kind)` off the baseline, a handle length inside the curve's ends. |
| `Edge.TabGeometry` | script.js:41-67 | A and B lie on the baseline, 0.3 × length in from each end, and the curve spans the middle 0.4 × length. Each control point is exactly `TabSize` off the baseline: outwards along `perp` for a tab out, inwards for a tab in. The handles are `0.4 × length × 0.55 / 2` long and keep A < c1 ≤ c2 < B along the edge. |
| `Edge.MirroredTab` | script.js:43-67 | On an edge long enough for a tab, the tab-in path is the tab-out path reflected across the baseline, command by command. |
| `Edge.TabInMirrorsTabOut` | script.js:43-67 | A tab in and a tab out share both straight parts and the curve's end points, and differ in both control points. On a short edge they are the same single line. |
| `Edge.DistanceSymmetric` | script.js:25 | The length is the same in both directions. |
| `Edge.EdgesInterlock` | script.js:24-75 | An edge drawn from `p2` back to `p1` with kind `k2` runs backwards along the same lines and curve as the edge from `p1` to `p2` with kind `k1` if and only if `k2` is the opposite of `k1`, or the edge is too short for a tab. |
| `Edge.EdgeSegmentTranslated` | script.js:24-75 | Moving both ends of an edge by a vector moves every point of its path by the same vector. |
| `Geometry.UnitDirection` | script.js:32-34 | The direction `(p2 - p1) / length` has unit length. |
| `Geometry.FrameCoordinates` | script.js:32-38 | Reading back the along and perpendicular coordinates of a frame point gives the coordinates it was built from. |
| `Geometry.FrameComplete` | script.js:32-38 | Every point is the frame point of its own frame coordinates, so the frame covers the plane. |
| `Geometry.FrameUnique` | script.js:32-38 | Two points with equal frame coordinates are equal. |
| `Geometry.FrameEnds` | script.js:49-54 | The frame point 0 along is `p1`, and the frame point `length` along is `p2`. |
| `Geometry.FrameReversed` | script.js:32-38 | Swapping the ends of an edge maps `a` along to `length - a` along and flips the side of `perp`. |
| `Geometry.FrameTranslated` | script.js:49-67 | The frame moves with its edge. |
| `Edge.TabCurveOffset` | script.js:56-71 | At every parameter `t` of the drawn Bézier curve, its distance from the baseline is `3 t (1 - t) × Bulge(kind)`: zero at A and B, and signed like the tab. |
| `Edge.TabCurvePeak` | script.js:56-71 | For `t` in `[0, 1]` the curve of a tab out stays within `[0, 0.75 × TabSize]` of the baseline, and that of a tab in within `[-0.75 × TabSize, 0]`. The middle of the curve reaches exactly `0.75 × Bulge(kind)`. |
| `Edge.ReversedTabBulgesOpposite` | script.js:36-67 | An edge drawn from `p2` to `p1` with the same kind has its control points at `-Bulge(kind)` in the frame of the edge from `p1` to `p2`, whose own control points are at `+Bulge(kind)`. |
| `Geometry.CurveOffset` | script.js:71 | The offset of a point on a cubic Bézier curve from an edge's baseline is the Bernstein blend of the offsets of its start, its two control points and its end. |
| `Path.RunConcat` | script.js:114-128 | Drawing two command lists one after the other equals drawing their concatenation, which is how the path string is built up. |
| `Path.RunDrawing` | script.js:70-72 | Line and curve commands keep the subpath start, and the pen ends at the last command's end point. |
| `Outline.SideIsDistance` | script.js:116-126 | Each side's nominal length, `w` or `h`, is the distance between its corners. |
| `Outline.SideSegment` | script.js:116-126 | Each side draws one or three commands, none of them a move or a close, and ends at the side's end corner. |
| `Outline.PieceOutline` | script.js:114-128 | The outline starts with `M 0,0` and ends with `Z`. Everything in between is lines and curves, between 6 and 14 commands in all. |
| `Outline.OutlineLength` | script.js:114-128 | On a piece whose sides are all at least twice the tab size, the outline has `6 + 2 × (number of tabbed sides)` commands: each tab adds a curve and a line. |
| `Outline.DefaultOutline` | script.js:114-128 | The outline at the source's size, 100 × 100: it has `6 + 2 × (number of tabbed sides)` commands, starts with `M 0,0` and ends with `Z`. |
| `Outline.ViewBox` | script.js:96-98 | The SVG view box is the piece's box padded by `1.2 × TabSize` on every side. |
| `Outline.OutlineIsClosed` | script.js:114-128 | Before the final `Z` the pen is already back at (0,0), the subpath start, and it stays there after `Z`: the left side joins the top side with no gap. |
| `Outline.OutlineVisitsCornersClockwise` | script.js:116-126 | There are four cut points in the path where the pen stands at (w,0), (w,h), (0,h) and (0,0), in that order, and the last of them is just before `Z`. |
| `Outline.SideFrame` | script.js:36-38 | On each side walked clockwise, the edge frame is the box's own axes with `perp` pointing out of the box. |
| `Outline.NormalPointsOutward` | script.js:36-38 | A point a positive distance along `perp` from any side lies outside the box. A point a negative distance smaller than the box's depth lies strictly inside it. |
| `Outline.SideTabPoints` | script.js:116-126 | A tabbed side draws exactly the tab path written in the box's coordinates (`SideTabPath`). |
| `Outline.TabsPointOutward` | script.js:37-44 | A side draws a curve exactly when it has a tab and is at least twice the tab size long. A tab out puts both control points outside `[0,w] × [0,h]`. A tab in puts both strictly inside when the box is deeper than a tab. |
| `Outline.SideWithinPaddedBox` | script.js:116-126 | Every point a side names, control points included, lies within `TabSize` of the box. |
| `Outline.OutlineWithinViewBox` | script.js:96-98 | Every coordinate of the outline lies in `[-TabSize, w + TabSize] × [-TabSize, h + TabSize]`. That range is inside the SVG view box, which is padded by 1.2 × `TabSize`. |
| `Pieces.Seed` | script.js:225-233 | The seed table has four pieces, and the piece at index `i` has id `i + 1`. |
| `Pieces.SeedGrid` | script.js:225-233 | The seed table, read as the 2 × 2 grid its labels name, is rectangular. |
| `Pieces.SeedIsCompatible` | script.js:225-239 | The seed table keeps its comment's promise: every inner edge is a tab out against a tab in (P1.right/P2.left, P1.bottom/P3.top, P2.bottom/P4.top, P3.right/P4.left), the outer border is flat, and the ids are distinct. |
| `Pieces.RightNeighbourInterlocks` | script.js:235-239 | With one piece a cell to the right of another, its left side retraces the other's right side if and only if the two fit, or the pieces are too short for tabs. |
| `Pieces.LowerNeighbourInterlocks` | script.js:235-239 | With one piece a cell below another, its top side retraces the other's bottom side if and only if the two fit, or the pieces are too narrow for tabs. |
| `Pieces.CompatibleGridInterlocks` | script.js:235-239 | In any compatible grid of pieces placed edge to edge, every shared edge is drawn along the same line and curve by both neighbours. |
| `Pieces.SeedNeighboursInterlock` | script.js:225-239 | At the source's size, once placed edge to edge, the four pairs of seed neighbours draw their shared edges along the same line and curve. |
| `Pieces.FirstSeedOutline` | script.js:227 | The first seed piece at the source's size has this path: `M 0,0 L 100,0 L 100,30 C 120,41 120,59 100,70 L 100,100 L 70,100 C 59,120 41,120 30,100 L 0,100 L 0,0 Z`. |

## Left out

- The `Math.sqrt` call and IEEE-754 rounding are not modelled (script.js:25). Arithmetic is exact over reals. The length is a parameter that must equal the Euclidean distance, and the outline supplies it exactly (`w` or `h`).
- Converting numbers to text in the path string is not modelled (script.js:29, 70-72). A path is a list of commands.
- Creating the SVG and DOM elements is not modelled (script.js:82-107, 130-151): the wrapper, the `viewBox`, `width` and `style` attributes, and the label. The view box rectangle is modelled as a `Box` (`Outline.ViewBox`), so the bounds can be stated against it.
- Drag and drop is not modelled (script.js:160-222). It is event plumbing over mutable DOM state.
- The default fill colour, the `DOMContentLoaded` wiring and appending the pieces to the container are not modelled (script.js:1-6, 132-136, 243-246).
- An edge type string other than the three known ones is not modelled. The source treats it as a tab in (script.js:44). `EdgeType` is a closed datatype, so this case cannot arise in the model.
- The seed table's screen positions and colours are recorded in `Pieces.Seed` but nothing is proved about them (script.js:227-233). The pieces start 120 units apart on a grid of 100-unit pieces, so neighbours begin with a 20-unit gap and meet only once dragged together. The interlocking lemmas state what happens when they are placed edge to edge.
