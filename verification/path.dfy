/**
 SVG path commands in absolute coordinates, and the pen that follows them.

 The source builds the `d` attribute of an SVG `<path>` as text out of the
 commands `M`, `L`, `C` and `Z`. Here a path is the list of those commands;
 turning numbers into text is not modelled.
 */
module Path {
  import opened Geometry

  datatype Command =
    | MoveTo(to: Point)                       // M x,y
    | LineTo(to: Point)                       // L x,y
    | CubicTo(c1: Point, c2: Point, to: Point) // C c1 c2 end
    | Close                                   // Z

  /** Where the pen is, and where the current subpath began (the point `Z`
      draws back to). */
  datatype Pen = Pen(current: Point, subpathStart: Point)

  /** The pen after drawing one command, following the SVG path grammar. */
  function Step(pen: Pen, c: Command): Pen {
    match c
    case MoveTo(p) => Pen(p, p)
    case LineTo(p) => Pen(p, pen.subpathStart)
    case CubicTo(_, _, p) => Pen(p, pen.subpathStart)
    case Close => Pen(pen.subpathStart, pen.subpathStart)
  }

  /** The pen after drawing a whole list of commands. */
  function Run(pen: Pen, cmds: seq<Command>): Pen
    decreases |cmds|
  {
    if |cmds| == 0 then pen else Run(Step(pen, cmds[0]), cmds[1..])
  }

  /** Drawing two lists one after the other is drawing their concatenation. */
  lemma {:induction false} RunConcat(pen: Pen, a: seq<Command>, b: seq<Command>)
    ensures Run(pen, a + b) == Run(Run(pen, a), b)
    decreases |a|
  {
    if |a| == 0 {
      assert a + b == b;
    } else {
      assert (a + b)[0] == a[0];
      assert (a + b)[1..] == a[1..] + b;
      RunConcat(Step(pen, a[0]), a[1..], b);
    }
  }

  /** Commands that draw but never start a new subpath or close one. */
  predicate IsDrawing(c: Command) {
    c.LineTo? || c.CubicTo?
  }

  /** Drawing-only commands leave the subpath start alone, and the pen ends
      where the last of them ends. */
  lemma {:induction false} RunDrawing(pen: Pen, cmds: seq<Command>)
    requires |cmds| > 0
    requires forall i :: 0 <= i < |cmds| ==> IsDrawing(cmds[i])
    ensures IsDrawing(cmds[|cmds| - 1])
         && Run(pen, cmds) == Pen(cmds[|cmds| - 1].to, pen.subpathStart)
    decreases |cmds|
  {
    if |cmds| > 1 {
      RunDrawing(Step(pen, cmds[0]), cmds[1..]);
    }
  }

  /** Every point a command names: control points and end point. */
  predicate CommandWithin(c: Command, b: Box) {
    match c
    case MoveTo(p) => InBox(p, b)
    case LineTo(p) => InBox(p, b)
    case CubicTo(c1, c2, p) => InBox(c1, b) && InBox(c2, b) && InBox(p, b)
    case Close => true
  }

  predicate PathWithin(cmds: seq<Command>, b: Box) {
    forall i :: 0 <= i < |cmds| ==> CommandWithin(cmds[i], b)
  }

  function TranslateCommand(c: Command, v: Point): Command {
    match c
    case MoveTo(p) => MoveTo(Translate(p, v))
    case LineTo(p) => LineTo(Translate(p, v))
    case CubicTo(c1, c2, p) => CubicTo(Translate(c1, v), Translate(c2, v), Translate(p, v))
    case Close => Close
  }

  /** The same path, moved by `v`. */
  function TranslatePath(cmds: seq<Command>, v: Point): (r: seq<Command>)
    ensures |r| == |cmds|
    ensures forall i :: 0 <= i < |cmds| ==> r[i] == TranslateCommand(cmds[i], v)
  {
    seq(|cmds|, i requires 0 <= i < |cmds| => TranslateCommand(cmds[i], v))
  }
}
