/** The SVG path commands of src/path_drawer.py (its command classes and
    `Point`), with the meaning section 8.3 of the SVG 1.1 recommendation
    gives them.  The text a command prints is its letter followed by its
    numbers, separated by spaces; the formatting of each number is
    abstracted to the number itself (a `Num` token). */
module PathCommands {
  import opened Wrappers

  datatype Command =
    | Move(x: real, y: real)
    | MoveRel(dx: real, dy: real)
    | Line(x: real, y: real)
    | LineRel(dx: real, dy: real)
    | Horizontal(x: real)
    | HorizontalRel(dx: real)
    | Vertical(y: real)
    | VerticalRel(dy: real)
    | ClosePath
    | CubicCurve(x1: real, y1: real, x2: real, y2: real, x: real, y: real)
    | CubicCurveRel(dx1: real, dy1: real, dx2: real, dy2: real, dx: real, dy: real)
    | ContinuedCubicCurve(x2: real, y2: real, x: real, y: real)
    | ContinuedCubicCurveRel(dx2: real, dy2: real, dx: real, dy: real)
    | QuadraticCurve(x1: real, y1: real, x: real, y: real)
    | QuadraticCurveRel(dx1: real, dy1: real, dx: real, dy: real)
    | ContinuedQuadraticCurve(x: real, y: real)
    | ContinuedQuadraticCurveRel(dx: real, dy: real)
    | Arc(rx: real, ry: real, xrot: real, largeArc: int, sweep: int, x: real, y: real)
    | ArcRel(rx: real, ry: real, xrot: real, largeArc: int, sweep: int, dx: real, dy: real)

  /** The command letter each class prints first. */
  function Letter(c: Command): char {
    match c
      case Move(_, _) => 'M'
      case MoveRel(_, _) => 'm'
      case Line(_, _) => 'L'
      case LineRel(_, _) => 'l'
      case Horizontal(_) => 'H'
      case HorizontalRel(_) => 'h'
      case Vertical(_) => 'V'
      case VerticalRel(_) => 'v'
      case ClosePath => 'Z'
      case CubicCurve(_, _, _, _, _, _) => 'C'
      case CubicCurveRel(_, _, _, _, _, _) => 'c'
      case ContinuedCubicCurve(_, _, _, _) => 'S'
      case ContinuedCubicCurveRel(_, _, _, _) => 's'
      case QuadraticCurve(_, _, _, _) => 'Q'
      case QuadraticCurveRel(_, _, _, _) => 'q'
      case ContinuedQuadraticCurve(_, _) => 'T'
      case ContinuedQuadraticCurveRel(_, _) => 't'
      case Arc(_, _, _, _, _, _, _) => 'A'
      case ArcRel(_, _, _, _, _, _, _) => 'a'
  }

  /** The numbers each class prints after its letter, in order; the arc
      flags print as the integers they are. */
  function Args(c: Command): seq<real> {
    match c
      case Move(x, y) => [x, y]
      case MoveRel(dx, dy) => [dx, dy]
      case Line(x, y) => [x, y]
      case LineRel(dx, dy) => [dx, dy]
      case Horizontal(x) => [x]
      case HorizontalRel(dx) => [dx]
      case Vertical(y) => [y]
      case VerticalRel(dy) => [dy]
      case ClosePath => []
      case CubicCurve(x1, y1, x2, y2, x, y) => [x1, y1, x2, y2, x, y]
      case CubicCurveRel(dx1, dy1, dx2, dy2, dx, dy) => [dx1, dy1, dx2, dy2, dx, dy]
      case ContinuedCubicCurve(x2, y2, x, y) => [x2, y2, x, y]
      case ContinuedCubicCurveRel(dx2, dy2, dx, dy) => [dx2, dy2, dx, dy]
      case QuadraticCurve(x1, y1, x, y) => [x1, y1, x, y]
      case QuadraticCurveRel(dx1, dy1, dx, dy) => [dx1, dy1, dx, dy]
      case ContinuedQuadraticCurve(x, y) => [x, y]
      case ContinuedQuadraticCurveRel(dx, dy) => [dx, dy]
      case Arc(rx, ry, xrot, large, sweep, x, y) => [rx, ry, xrot, large as real, sweep as real, x, y]
      case ArcRel(rx, ry, xrot, large, sweep, dx, dy) => [rx, ry, xrot, large as real, sweep as real, dx, dy]
  }

  /** The number of parameters section 8.3 of SVG 1.1 gives each command
      letter; -1 for a character that is not a command. */
  function SvgArity(letter: char): int {
    if letter in "Zz" then 0
    else if letter in "HhVv" then 1
    else if letter in "MmLlTt" then 2
    else if letter in "SsQq" then 4
    else if letter in "Cc" then 6
    else if letter in "Aa" then 7
    else -1
  }

  predicate IsRelative(c: Command) {
    c.MoveRel? || c.LineRel? || c.HorizontalRel? || c.VerticalRel? || c.CubicCurveRel? ||
    c.ContinuedCubicCurveRel? || c.QuadraticCurveRel? || c.ContinuedQuadraticCurveRel? || c.ArcRel?
  }

  /** Every command prints as many numbers as its letter takes in SVG. */
  lemma ArityMatchesSvg(c: Command)
    ensures |Args(c)| == SvgArity(Letter(c))
  {
  }

  /** Relative commands, and only they, print a lower-case letter. */
  lemma RelativeLetters(c: Command)
    ensures IsRelative(c) <==> 'a' <= Letter(c) <= 'z'
  {
  }

  // ---------------------------------------------------------------------
  // The path data string, as tokens, and reading it back
  // ---------------------------------------------------------------------

  datatype Token = Sym(letter: char) | Num(value: real)

  function Nums(xs: seq<real>): (ts: seq<Token>)
    ensures |ts| == |xs| && forall i :: 0 <= i < |xs| ==> ts[i] == Num(xs[i])
  {
    seq(|xs|, i requires 0 <= i < |xs| => Num(xs[i]))
  }

  /** `str(command)`: the letter, then the numbers. */
  function Tokens(c: Command): seq<Token> {
    [Sym(Letter(c))] + Nums(Args(c))
  }

  /** The "d" attribute: the commands' texts joined by spaces. */
  function PathTokens(cmds: seq<Command>): seq<Token> {
    if cmds == [] then [] else Tokens(cmds[0]) + PathTokens(cmds[1..])
  }

  /** The command a letter and its numbers denote. */
  function Build(letter: char, n: seq<real>): (r: Option<Command>)
    requires |n| == SvgArity(letter)
  {
    match letter
      case 'M' => Some(Move(n[0], n[1]))
      case 'm' => Some(MoveRel(n[0], n[1]))
      case 'L' => Some(Line(n[0], n[1]))
      case 'l' => Some(LineRel(n[0], n[1]))
      case 'H' => Some(Horizontal(n[0]))
      case 'h' => Some(HorizontalRel(n[0]))
      case 'V' => Some(Vertical(n[0]))
      case 'v' => Some(VerticalRel(n[0]))
      case 'Z' => Some(ClosePath)
      case 'C' => Some(CubicCurve(n[0], n[1], n[2], n[3], n[4], n[5]))
      case 'c' => Some(CubicCurveRel(n[0], n[1], n[2], n[3], n[4], n[5]))
      case 'S' => Some(ContinuedCubicCurve(n[0], n[1], n[2], n[3]))
      case 's' => Some(ContinuedCubicCurveRel(n[0], n[1], n[2], n[3]))
      case 'Q' => Some(QuadraticCurve(n[0], n[1], n[2], n[3]))
      case 'q' => Some(QuadraticCurveRel(n[0], n[1], n[2], n[3]))
      case 'T' => Some(ContinuedQuadraticCurve(n[0], n[1]))
      case 't' => Some(ContinuedQuadraticCurveRel(n[0], n[1]))
      case 'A' => Some(Arc(n[0], n[1], n[2], n[3].Floor, n[4].Floor, n[5], n[6]))
      case 'a' => Some(ArcRel(n[0], n[1], n[2], n[3].Floor, n[4].Floor, n[5], n[6]))
      case _ => None
  }

  /** The numbers of a run of `Num` tokens. */
  function Values(ts: seq<Token>): (xs: seq<real>)
    requires forall i :: 0 <= i < |ts| ==> ts[i].Num?
    ensures |xs| == |ts|
  {
    seq(|ts|, i requires 0 <= i < |ts| => ts[i].value)
  }

  /** Reads path data back: a letter, as many numbers as SVG gives it, and
      so on to the end; None when the tokens are not path data. */
  function Parse(ts: seq<Token>): Option<seq<Command>>
    decreases |ts|
  {
    if ts == [] then Some([])
    else if !ts[0].Sym? then None
    else
      var n := SvgArity(ts[0].letter);
      if n < 0 || |ts| < 1 + n || exists i :: 1 <= i <= n && !ts[i].Num? then None
      else
        match Build(ts[0].letter, Values(ts[1..1 + n]))
          case None => None
          case Some(c) =>
            match Parse(ts[1 + n..])
              case None => None
              case Some(rest) => Some([c] + rest)
  }

  /** Each command's text reads back as the command. */
  lemma BuildTokens(c: Command)
    ensures |Args(c)| == SvgArity(Letter(c))
    ensures Build(Letter(c), Args(c)) == Some(c)
  {
  }

  /** The path data of any command list reads back as that list: the "d"
      attribute loses no command. */
  lemma {:induction false} ParsePathTokens(cmds: seq<Command>)
    ensures Parse(PathTokens(cmds)) == Some(cmds)
  {
    if cmds != [] {
      var c := cmds[0];
      var ts := PathTokens(cmds);
      var n := |Args(c)|;
      BuildTokens(c);
      assert ts == Tokens(c) + PathTokens(cmds[1..]);
      assert ts[0] == Sym(Letter(c));
      assert ts[1..1 + n] == Nums(Args(c));
      assert Values(ts[1..1 + n]) == Args(c);
      assert ts[1 + n..] == PathTokens(cmds[1..]);
      ParsePathTokens(cmds[1..]);
      assert [c] + cmds[1..] == cmds;
    }
  }

  /** Path data is a concatenation: the text of two lists is the text of
      the first followed by that of the second. */
  lemma {:induction false} PathTokensAppend(a: seq<Command>, b: seq<Command>)
    ensures PathTokens(a + b) == PathTokens(a) + PathTokens(b)
  {
    if a == [] {
      assert a + b == b;
    } else {
      assert (a + b)[0] == a[0];
      assert (a + b)[1..] == a[1..] + b;
      PathTokensAppend(a[1..], b);
    }
  }

  // ---------------------------------------------------------------------
  // Points
  // ---------------------------------------------------------------------

  datatype Point = Point(x: real, y: real)

  /** `Point.__eq__`: both coordinates within 0.01. */
  predicate Near(a: Point, b: Point) {
    -0.01 < a.x - b.x < 0.01 && -0.01 < a.y - b.y < 0.01
  }

  function Add(a: Point, b: Point): Point {
    Point(a.x + b.x, a.y + b.y)
  }

  function Sub(a: Point, b: Point): Point {
    Point(a.x - b.x, a.y - b.y)
  }

  function AsTuple(p: Point): (t: (real, real))
    ensures Point(t.0, t.1) == p
  {
    (p.x, p.y)
  }

  /** `==` on points is reflexive and symmetric, and `!=` is its negation. */
  lemma NearReflexiveSymmetric(a: Point, b: Point)
    ensures Near(a, a)
    ensures Near(a, b) <==> Near(b, a)
  {
  }

  /** ... but not transitive: a chain of near points drifts apart. */
  lemma NearNotTransitive()
    ensures Near(Point(0.0, 0.0), Point(0.006, 0.0))
    ensures Near(Point(0.006, 0.0), Point(0.012, 0.0))
    ensures !Near(Point(0.0, 0.0), Point(0.012, 0.0))
  {
  }

  /** Exact points are near; points near each other can differ. */
  lemma NearIsTolerant(a: Point, b: Point)
    ensures a == b ==> Near(a, b)
    ensures Near(Point(0.0, 0.0), Point(0.005, 0.0))
  {
  }

  /** `+` and `-` undo each other. */
  lemma AddSubInverse(a: Point, b: Point)
    ensures Sub(Add(a, b), b) == a
    ensures Add(Sub(a, b), b) == a
  {
  }

  // ---------------------------------------------------------------------
  // The current point, as SVG 1.1 section 8.3 defines it
  // ---------------------------------------------------------------------

  /** The current point and the start of the current subpath. */
  datatype Pen = Pen(current: Point, start: Point)

  /** The pen after one command: every command but "Z" ends at its final
      coordinate pair (absolute, or relative to the current point); moves
      also start a subpath; "Z" returns to the subpath start. */
  function Draw(p: Pen, c: Command): (q: Pen)
    ensures !c.ClosePath? && !c.Move? && !c.MoveRel? ==> q.start == p.start
  {
    var cur := p.current;
    match c
      case Move(x, y) => Pen(Point(x, y), Point(x, y))
      case MoveRel(dx, dy) => Pen(Add(cur, Point(dx, dy)), Add(cur, Point(dx, dy)))
      case Line(x, y) => p.(current := Point(x, y))
      case LineRel(dx, dy) => p.(current := Add(cur, Point(dx, dy)))
      case Horizontal(x) => p.(current := Point(x, cur.y))
      case HorizontalRel(dx) => p.(current := Point(cur.x + dx, cur.y))
      case Vertical(y) => p.(current := Point(cur.x, y))
      case VerticalRel(dy) => p.(current := Point(cur.x, cur.y + dy))
      case ClosePath => p.(current := p.start)
      case CubicCurve(_, _, _, _, x, y) => p.(current := Point(x, y))
      case CubicCurveRel(_, _, _, _, dx, dy) => p.(current := Add(cur, Point(dx, dy)))
      case ContinuedCubicCurve(_, _, x, y) => p.(current := Point(x, y))
      case ContinuedCubicCurveRel(_, _, dx, dy) => p.(current := Add(cur, Point(dx, dy)))
      case QuadraticCurve(_, _, x, y) => p.(current := Point(x, y))
      case QuadraticCurveRel(_, _, dx, dy) => p.(current := Add(cur, Point(dx, dy)))
      case ContinuedQuadraticCurve(x, y) => p.(current := Point(x, y))
      case ContinuedQuadraticCurveRel(dx, dy) => p.(current := Add(cur, Point(dx, dy)))
      case Arc(_, _, _, _, _, x, y) => p.(current := Point(x, y))
      case ArcRel(_, _, _, _, _, dx, dy) => p.(current := Add(cur, Point(dx, dy)))
  }

  /** The current points after each command in turn. */
  function Trace(p: Pen, cmds: seq<Command>): (t: seq<Point>)
    ensures |t| == |cmds|
    decreases |cmds|
  {
    if cmds == [] then [] else [Draw(p, cmds[0]).current] + Trace(Draw(p, cmds[0]), cmds[1..])
  }

  /** The commands `rectangle(x, y, w, h)` appends. */
  function RectangleCommands(x: real, y: real, w: real, h: real): seq<Command> {
    [Move(x, y), HorizontalRel(w), VerticalRel(h), HorizontalRel(-w), ClosePath]
  }

  /** From any pen, the rectangle's commands visit its four corners in turn
      and close back on the first, where `rectangle` leaves the location. */
  lemma RectangleTrace(p: Pen, x: real, y: real, w: real, h: real)
    ensures Trace(p, RectangleCommands(x, y, w, h)) ==
            [Point(x, y), Point(x + w, y), Point(x + w, y + h), Point(x, y + h), Point(x, y)]
  {
    var cmds := RectangleCommands(x, y, w, h);
    var p1 := Draw(p, cmds[0]);
    var p2 := Draw(p1, cmds[1]);
    var p3 := Draw(p2, cmds[2]);
    var p4 := Draw(p3, cmds[3]);
    assert p1.start == Point(x, y);
    assert p4.start == Point(x, y);
    var t4 := Trace(p4, cmds[4..]);
    assert t4 == [Point(x, y)];
    var t3 := Trace(p3, cmds[3..]);
    assert t3 == [p4.current] + t4 by { assert cmds[3..][1..] == cmds[4..]; }
    var t2 := Trace(p2, cmds[2..]);
    assert t2 == [p3.current] + t3 by { assert cmds[2..][1..] == cmds[3..]; }
    var t1 := Trace(p1, cmds[1..]);
    assert t1 == [p2.current] + t2 by { assert cmds[1..][1..] == cmds[2..]; }
  }

  /** A command that draws: it neither moves nor closes. */
  predicate Extends(c: Command) {
    !c.Move? && !c.MoveRel? && !c.ClosePath?
  }

  /** The pen after a run of commands. */
  function DrawAll(p: Pen, cmds: seq<Command>): Pen
    decreases |cmds|
  {
    if cmds == [] then p else DrawAll(Draw(p, cmds[0]), cmds[1..])
  }

  /** The trace of two runs is the first run's trace followed by the
      second's, drawn from where the first left the pen. */
  lemma {:induction false} TraceAppend(p: Pen, a: seq<Command>, b: seq<Command>)
    ensures Trace(p, a + b) == Trace(p, a) + Trace(DrawAll(p, a), b)
    decreases |a|
  {
    if a == [] {
      assert a + b == b;
    } else {
      assert (a + b)[0] == a[0];
      assert (a + b)[1..] == a[1..] + b;
      TraceAppend(Draw(p, a[0]), a[1..], b);
    }
  }

  /** Drawing commands keep the subpath start. */
  lemma {:induction false} StartKept(p: Pen, cmds: seq<Command>)
    requires forall i :: 0 <= i < |cmds| ==> Extends(cmds[i])
    ensures DrawAll(p, cmds).start == p.start
    decreases |cmds|
  {
    if cmds != [] {
      StartKept(Draw(p, cmds[0]), cmds[1..]);
    }
  }

  /** In SVG, "Z" after M x y and any run of drawing commands returns the
      current point to (x, y); `close_path` instead sets the location to
      (0, 0) (see PathDrawer.ClosePathLocation). */
  lemma {:induction false} CloseReturnsToStart(p: Pen, x: real, y: real, cmds: seq<Command>)
    requires forall i :: 0 <= i < |cmds| ==> Extends(cmds[i])
    ensures var t := Trace(p, [Move(x, y)] + cmds + [ClosePath]);
            |t| == |cmds| + 2 && t[|t| - 1] == Point(x, y)
  {
    var prefix := [Move(x, y)] + cmds;
    TraceAppend(p, prefix, [ClosePath]);
    assert prefix[0] == Move(x, y) && prefix[1..] == cmds;
    StartKept(Draw(p, Move(x, y)), cmds);
  }

  /** `move_to`, `line_to` and `curve_to` set the location to the SVG
      current point after the command they append. */
  lemma LocationIsCurrentPoint(p: Pen, x1: real, y1: real, x2: real, y2: real, x: real, y: real)
    ensures Draw(p, Move(x, y)).current == Point(x, y)
    ensures Draw(p, Line(x, y)).current == Point(x, y)
    ensures Draw(p, CubicCurve(x1, y1, x2, y2, x, y)).current == Point(x, y)
  {
  }

  // ---------------------------------------------------------------------
  // The closing rule of fill_preserve
  // ---------------------------------------------------------------------

  /** `fill_preserve` appends "Z" to a non-empty path that does not already
      end with one. */
  function CloseForFill(path: seq<Command>): seq<Command> {
    if |path| > 0 && path[|path| - 1] != ClosePath then path + [ClosePath] else path
  }

  /** The filled path keeps the original as a prefix, adds at most a "Z",
      ends with "Z" exactly when it is non-empty, and closing again changes
      nothing. */
  lemma CloseForFillSpec(path: seq<Command>)
    ensures var r := CloseForFill(path);
            && r[..|path|] == path
            && |path| <= |r| <= |path| + 1
            && (|r| > 0 <==> |path| > 0)
            && (|r| > 0 ==> r[|r| - 1] == ClosePath)
            && CloseForFill(r) == r
  {
  }

  /** A path that already ends with "Z", or is empty, is left as it is. */
  lemma CloseForFillKeeps(path: seq<Command>)
    ensures CloseForFill(path) == path <==> (path == [] || path[|path| - 1] == ClosePath)
  {
  }
}
