/**
 * Whether a point touches an object. A bounding box widened by the slop is looked at first: for strokes and lines that
 * never changes the answer, for filled things it is the answer, and for ellipses it matters exactly when they are tiny.
 */
module HitTest {
  import opened Common
  import opened BoardOps
  import opened StrokeGeometry
  import opened StrokeCodec

  datatype Box = Box(x0: real, y0: real, x1: real, y1: real)

  function Min(a: real, b: real): real { if a <= b then a else b }
  function Max(a: real, b: real): real { if a >= b then a else b }
  function Distance(a: real, b: real): real { if a >= b then a - b else b - a }

  predicate IsA(o: Props, kinds: set<BoardKind>) {
    Kind in o && o[Kind].KindOf? && o[Kind].kind in kinds
  }

  predicate IsStroke(o: Props) { IsA(o, {Pen, Hl}) }
  predicate IsLine(o: Props) { IsA(o, {Line, Arrow}) }

  /** Drawn with a pen of some width; anything else is a plain rectangle of its size. */
  predicate HasWidth(o: Props) { IsA(o, {Pen, Hl, Line, Arrow, Rect, Ellipse}) }

  predicate IsFilled(o: Props) {
    Fill in o && o[Fill].Str? && o[Fill].s != ""
  }

  // ---- where an object is ----

  function Lines(text: string): (r: seq<string>)
    ensures |r| >= 1
  {
    if text == "" then [""]
    else
      var rest := Lines(text[1..]);
      if text[0] == '\n' then [""] + rest else [[text[0]] + rest[0]] + rest[1..]
  }

  function Longest(lines: seq<string>): nat {
    if lines == [] then 1
    else if |lines[0]| > Longest(lines[1..]) then |lines[0]| else Longest(lines[1..])
  }

  function LinesOf(o: Props): (lines: seq<string>)
    ensures lines != []
  {
    Lines(if Text in o && o[Text].Str? then o[Text].s else "")
  }

  /** The estimate of a text's size, from its lines and its letters' size. */
  function TextSize(o: Props): Point {
    var lines, size := LinesOf(o), NumOr(o, Size, 20.0);
    Point(Longest(lines) as real * size * 0.6, |lines| as real * size * 1.25)
  }

  function Start(o: Props): Point {
    Point(NumOr(o, X, 0.0), NumOr(o, Y, 0.0))
  }

  function End(o: Props): Point {
    var size := if IsA(o, {TextBox}) then TextSize(o) else Point(NumOr(o, W, 0.0), NumOr(o, H, 0.0));
    Point(NumOr(o, X, 0.0) + size.x, NumOr(o, Y, 0.0) + size.y)
  }

  /** The box with these two corners. */
  function Norm(a: Point, e: Point): Box {
    Box(Min(a.x, e.x), Min(a.y, e.y), Max(a.x, e.x), Max(a.y, e.y))
  }

  function Shape(o: Props): Box {
    Norm(Start(o), End(o))
  }

  /** The corners of what is drawn. */
  function Corners(o: Props): seq<Point> {
    if IsStroke(o) then Decoded(o) else [Start(o), End(o)]
  }

  predicate Contains(b: Box, q: Point, pad: real) {
    b.x0 + pad <= q.x <= b.x1 - pad && b.y0 + pad <= q.y <= b.y1 - pad
  }

  /** The smallest box around `points`, widened by `pad`. */
  ghost predicate Bounding(b: Box, points: seq<Point>, pad: real) {
    && (forall q :: q in points ==> Contains(b, q, pad))
    && (exists q :: q in points && q.x == b.x0 + pad) && (exists q :: q in points && q.x == b.x1 - pad)
    && (exists q :: q in points && q.y == b.y0 + pad) && (exists q :: q in points && q.y == b.y1 - pad)
  }

  function Pad(o: Props): real { NumOr(o, Size, 2.0) / 2.0 }

  function Widening(o: Props): real { if HasWidth(o) then Pad(o) else 0.0 }

  function Widen(b: Box, d: real): Box { Box(b.x0 - d, b.y0 - d, b.x1 + d, b.y1 + d) }

  /** A stroke without points is at its object's place. */
  method Bounds(o: Props) returns (b: Box)
    ensures Corners(o) != [] ==> Bounding(b, Corners(o), Widening(o))
    ensures Corners(o) == [] ==> b == Norm(Start(o), Start(o))
    ensures !IsStroke(o) ==> b == Widen(Shape(o), Widening(o))
  {
    if IsStroke(o) {
      var pts := DecodePoints(o);
      var box := BoxAround(pts);
      if box.None? { return Norm(Start(o), Start(o)); }
      Padded(box.value, Corners(o), Pad(o));
      return Widen(box.value, Pad(o));
    }
    var a, e := Start(o), End(o);
    Widened(Norm(a, a), [a], e);
    assert [a] + [e] == Corners(o);
    Padded(Norm(a, e), Corners(o), Widening(o));
    b := Widen(Norm(a, e), Widening(o));
  }

  /** The running box; `None` is the box that reaches from +Infinity to -Infinity. */
  method BoxAround(pts: seq<Point>) returns (r: Option<Box>)
    ensures r.None? <==> pts == []
    ensures r.Some? ==> Bounding(r.value, pts, 0.0)
  {
    r := None;
    for i := 0 to |pts|
      invariant r.None? <==> i == 0
      invariant r.Some? ==> Bounding(r.value, pts[..i], 0.0)
    {
      var q := pts[i];
      assert pts[..i + 1] == pts[..i] + [q];
      if r.None? {
        assert q in pts[..i + 1];
        r := Some(Box(q.x, q.y, q.x, q.y));
      } else {
        Widened(r.value, pts[..i], q);
        r := Some(Box(Min(r.value.x0, q.x), Min(r.value.y0, q.y), Max(r.value.x1, q.x), Max(r.value.y1, q.y)));
      }
    }
    assert pts[..|pts|] == pts;
  }

  lemma Widened(r: Box, points: seq<Point>, q: Point)
    requires Bounding(r, points, 0.0)
    ensures Bounding(Box(Min(r.x0, q.x), Min(r.y0, q.y), Max(r.x1, q.x), Max(r.y1, q.y)), points + [q], 0.0)
  {
    var all := points + [q];
    assert q in all && forall p :: p in points ==> p in all;
  }

  lemma Padded(r: Box, points: seq<Point>, pad: real)
    requires Bounding(r, points, 0.0)
    ensures Bounding(Widen(r, pad), points, pad)
  {}

  // ---- what is drawn, and touching it ----

  ghost predicate OnSegment(q: Point, a: Point, b: Point) {
    exists t: real :: 0.0 <= t <= 1.0 && q == Along(a, b, t)
  }

  /** `q` is a point of the drawing: its only point, or one of the segments between neighbours. */
  ghost predicate Drawn(corners: seq<Point>, q: Point) {
    (|corners| == 1 && q == corners[0]) || exists i :: 0 < i < |corners| && OnSegment(q, corners[i - 1], corners[i])
  }

  predicate Within(d2: real, reach: real) {
    reach >= 0.0 && d2 <= Sq(reach)
  }

  function Reach(o: Props, slop: real): real {
    slop + Pad(o)
  }

  ghost predicate Touched(corners: seq<Point>, p: Point, reach: real) {
    exists q :: Drawn(corners, q) && Within(Dist2(p, q), reach)
  }

  /** Near on both axes: rectangles are not rounded at their corners. */
  predicate Near(p: Point, q: Point, reach: real) {
    Distance(p.x, q.x) <= reach && Distance(p.y, q.y) <= reach
  }

  predicate InBox(b: Box, p: Point, reach: real) {
    b.x0 - reach <= p.x <= b.x1 + reach && b.y0 - reach <= p.y <= b.y1 + reach
  }

  predicate OnOutline(b: Box, q: Point) {
    InBox(b, q, 0.0) && (q.x == b.x0 || q.x == b.x1 || q.y == b.y0 || q.y == b.y1)
  }

  ghost predicate NearOutline(b: Box, p: Point, reach: real) {
    exists q :: OnOutline(b, q) && Near(p, q, reach)
  }

  /** A quotient; no divisor here is 0 unless the reach is negative. */
  function Over(d: real, r: real): real { if r == 0.0 then 0.0 else d / r }

  function Radius(from: real, upTo: real): real { Max(1.0, (upTo - from) / 2.0) }

  /** How far out a point is, squared: 1 on the ellipse with these radii. */
  function Outness(d: Point, rx: real, ry: real): real {
    Sq(Over(d.x, rx)) + Sq(Over(d.y, ry))
  }

  function Centre(b: Box): Point {
    Point(b.x0 + Radius(b.x0, b.x1), b.y0 + Radius(b.y0, b.y1))
  }

  /** `d` is an offset from the centre of an ellipse with these radii. */
  predicate AtBand(d: Point, rx: real, ry: real, filled: bool, reach: real) {
    && Outness(d, rx + reach, ry + reach) <= 1.0
    && (filled || Outness(d, Max(1.0, rx - reach), Max(1.0, ry - reach)) >= 1.0)
  }

  function Offset(p: Point, c: Point): Point {
    Point(p.x - c.x, p.y - c.y)
  }

  /** On the band as wide as the reach on either side of an ellipse, or inside one that is filled. */
  predicate OnBand(b: Box, filled: bool, p: Point, reach: real) {
    AtBand(Offset(p, Centre(b)), Radius(b.x0, b.x1), Radius(b.y0, b.y1), filled, reach)
  }

  /** The point of the ellipse with these radii that `u` is of the unit circle. */
  function Scaled(c: Point, u: Point, rx: real, ry: real): Point {
    Point(c.x + u.x * rx, c.y + u.y * ry)
  }

  /** `p` is in the ellipse, its outline included. */
  ghost predicate InEllipse(c: Point, rx: real, ry: real, p: Point) {
    exists u: Point :: Sq(u.x) + Sq(u.y) <= 1.0 && p == Scaled(c, u, rx, ry)
  }

  /** `p` is in the ellipse, but not on its outline. */
  ghost predicate InsideEllipse(c: Point, rx: real, ry: real, p: Point) {
    exists u: Point :: Sq(u.x) + Sq(u.y) < 1.0 && p == Scaled(c, u, rx, ry)
  }

  ghost predicate OnEllipse(c: Point, rx: real, ry: real, p: Point) {
    exists u: Point :: Sq(u.x) + Sq(u.y) == 1.0 && p == Scaled(c, u, rx, ry)
  }

  /**
   * In the ellipse grown by the reach, and unless filled not inside the one shrunk by it, to a radius of 1 at least. A
   * reach is not negative; if it were, what the quotients say.
   */
  ghost predicate NearEllipse(b: Box, filled: bool, p: Point, reach: real) {
    var rx, ry := Radius(b.x0, b.x1), Radius(b.y0, b.y1);
    if reach < 0.0 then OnBand(b, filled, p, reach)
    else
      && InEllipse(Centre(b), rx + reach, ry + reach, p)
      && (filled || !InsideEllipse(Centre(b), Max(1.0, rx - reach), Max(1.0, ry - reach), p))
  }

  /** `p` is within `slop` of what is drawn, its width included. */
  ghost predicate Touches(o: Props, p: Point, slop: real) {
    var reach := Reach(o, slop);
    if IsStroke(o) || IsLine(o) then Touched(Corners(o), p, reach)
    else if IsA(o, {Ellipse}) then InBox(Shape(o), p, reach) && NearEllipse(Shape(o), IsFilled(o), p, reach)
    else if IsA(o, {Rect}) then (if IsFilled(o) then InBox(Shape(o), p, reach) else NearOutline(Shape(o), p, reach))
    else InBox(Shape(o), p, slop)
  }

  /** The same without the box in front. */
  ghost predicate TouchesBehind(o: Props, p: Point, slop: real) {
    var reach := Reach(o, slop);
    if IsStroke(o) || IsLine(o) then Touched(Corners(o), p, reach)
    else if IsA(o, {Ellipse}) then NearEllipse(Shape(o), IsFilled(o), p, reach)
    else IsA(o, {Rect}) && !IsFilled(o) ==> NearSideLine(Shape(o), p, reach)
  }

  /** Near one of the four lines the sides lie on. */
  predicate NearSideLine(b: Box, p: Point, reach: real) {
    || Distance(p.x, b.x0) <= reach || Distance(p.x, b.x1) <= reach
    || Distance(p.y, b.y0) <= reach || Distance(p.y, b.y1) <= reach
  }

  method Hits(o: Props, p: Point, slop: real) returns (r: bool)
    ensures r <==> Touches(o, p, slop)
  {
    var b := Bounds(o);
    if p.x < b.x0 - slop || p.x > b.x1 + slop || p.y < b.y0 - slop || p.y > b.y1 + slop {
      OffBoxNeverTouches(o, p, slop, b);
      return false;
    }
    InBoxDecides(o, p, slop, b);
    r := HitsExactly(o, p, slop);
  }

  /** The part behind the box. */
  method HitsExactly(o: Props, p: Point, slop: real) returns (r: bool)
    ensures r <==> TouchesBehind(o, p, slop)
  {
    var reach := Reach(o, slop);
    if IsStroke(o) {
      var pts := DecodePoints(o);
      r := HitsPath(pts, p, reach);
    } else if IsLine(o) {
      LineDecides(Start(o), End(o), p, reach);
      r := Within(SegmentDist2(p, Start(o), End(o)), reach);
    } else if IsA(o, {Ellipse}) {
      r := HitsEllipse(Shape(o), IsFilled(o), p, reach);
    } else if IsA(o, {Rect}) {
      var b := Shape(o);
      var dx, dy := Min(Distance(p.x, b.x0), Distance(p.x, b.x1)), Min(Distance(p.y, b.y0), Distance(p.y, b.y1));
      r := IsFilled(o) || Min(dx, dy) <= reach;
    } else {
      r := true;
    }
  }

  method HitsEllipse(b: Box, filled: bool, p: Point, reach: real) returns (r: bool)
    ensures r <==> NearEllipse(b, filled, p, reach)
  {
    BandDecides(b, filled, p, reach);
    var rx, ry := Radius(b.x0, b.x1), Radius(b.y0, b.y1);
    var d := Offset(p, Centre(b));
    if Outness(d, rx + reach, ry + reach) > 1.0 { return false; }
    if filled { return true; }
    return Outness(d, Max(1.0, rx - reach), Max(1.0, ry - reach)) >= 1.0;
  }

  method HitsPath(pts: seq<Point>, p: Point, reach: real) returns (r: bool)
    ensures r <==> Touched(pts, p, reach)
  {
    if |pts| == 1 {
      assert Drawn(pts, pts[0]);
      return Within(Dist2(p, pts[0]), reach);
    }
    SegmentsDecide(pts, p, reach);
    var i := 1;
    while i < |pts|
      invariant 1 <= i
      invariant forall k :: 0 < k < i && k < |pts| ==> !Within(SegmentDist2(p, pts[k - 1], pts[k]), reach)
    {
      if Within(SegmentDist2(p, pts[i - 1], pts[i]), reach) { return true; }
      i := i + 1;
    }
    return false;
  }

  /** A segment is within reach exactly when its distance is. */
  lemma SegmentDecides(p: Point, a: Point, b: Point, reach: real)
    ensures Within(SegmentDist2(p, a, b), reach) <==> exists q :: OnSegment(q, a, b) && Within(Dist2(p, q), reach)
  {
    if Within(SegmentDist2(p, a, b), reach) {
      var t := NearestAt(p, a, b);
      Dist2AtIsDist2(p, a, b, t);
      assert OnSegment(Along(a, b, t), a, b);
    }
    if exists q :: OnSegment(q, a, b) && Within(Dist2(p, q), reach) {
      var q :| OnSegment(q, a, b) && Within(Dist2(p, q), reach);
      var t: real :| 0.0 <= t <= 1.0 && q == Along(a, b, t);
      Dist2AtIsDist2(p, a, b, t);
      SegmentDist2IsLeast(p, a, b, t);
    }
  }

  /** Someone is near a path exactly when they are near one of its segments. */
  lemma SegmentsDecide(c: seq<Point>, p: Point, reach: real)
    requires |c| != 1
    ensures Touched(c, p, reach) <==> exists i :: 0 < i < |c| && Within(SegmentDist2(p, c[i - 1], c[i]), reach)
  {
    if Touched(c, p, reach) {
      var q :| Drawn(c, q) && Within(Dist2(p, q), reach);
      var i :| 0 < i < |c| && OnSegment(q, c[i - 1], c[i]);
      SegmentDecides(p, c[i - 1], c[i], reach);
    }
    if i :| 0 < i < |c| && Within(SegmentDist2(p, c[i - 1], c[i]), reach) {
      SegmentDecides(p, c[i - 1], c[i], reach);
      var q :| OnSegment(q, c[i - 1], c[i]) && Within(Dist2(p, q), reach);
      assert Drawn(c, q);
    }
  }

  lemma LineDecides(a: Point, b: Point, p: Point, reach: real)
    ensures Touched([a, b], p, reach) <==> Within(SegmentDist2(p, a, b), reach)
  {
    SegmentsDecide([a, b], p, reach);
    assert [a, b][0] == a && [a, b][1] == b;
  }

  lemma Between(lo: real, hi: real, a: real, b: real, t: real)
    requires lo <= a <= hi && lo <= b <= hi && 0.0 <= t <= 1.0
    ensures lo <= a + t * (b - a) <= hi
  {
    assert a + t * (b - a) == b - (1.0 - t) * (b - a);
    if a <= b {
      SameSigns(t, b - a);
      SameSigns(1.0 - t, b - a);
    } else {
      SameSigns(t, a - b);
      SameSigns(1.0 - t, a - b);
      assert t * (b - a) == -(t * (a - b)) && (1.0 - t) * (b - a) == -((1.0 - t) * (a - b));
    }
  }

  lemma SegmentInside(q: Point, a: Point, e: Point, b: Box, pad: real)
    requires OnSegment(q, a, e) && Contains(b, a, pad) && Contains(b, e, pad)
    ensures Contains(b, q, pad)
  {
    var t: real :| 0.0 <= t <= 1.0 && q == Along(a, e, t);
    Between(b.x0 + pad, b.x1 - pad, a.x, e.x, t);
    Between(b.y0 + pad, b.y1 - pad, a.y, e.y, t);
  }

  /** Everything drawn lies in the box. */
  lemma DrawnInside(corners: seq<Point>, q: Point, b: Box, pad: real)
    requires Drawn(corners, q) && forall c :: c in corners ==> Contains(b, c, pad)
    ensures Contains(b, q, pad)
  {
    if |corners| != 1 {
      var i :| 0 < i < |corners| && OnSegment(q, corners[i - 1], corners[i]);
      SegmentInside(q, corners[i - 1], corners[i], b, pad);
    }
  }

  lemma FarOnOneAxis(d: real, e: real, reach: real)
    requires reach >= 0.0 && (d > reach || d < -reach)
    ensures Sq(d) + Sq(e) > Sq(reach)
  {
    var m := if d > reach then d else -d;
    SqNonNegative(e);
    SqNonNegative(m - reach);
    SameSigns(reach, m - reach);
    assert Sq(d) == Sq(m) == Sq(m - reach) + 2.0 * (reach * (m - reach)) + Sq(reach);
  }

  /** Off the widened box on one side is farther than the reach from everything drawn. */
  lemma OutsideNeverTouches(corners: seq<Point>, p: Point, slop: real, pad: real, b: Box)
    requires corners != [] ==> Bounding(b, corners, pad)
    requires p.x < b.x0 - slop || p.x > b.x1 + slop || p.y < b.y0 - slop || p.y > b.y1 + slop
    ensures !Touched(corners, p, slop + pad)
  {
    var reach := slop + pad;
    forall q | Drawn(corners, q) ensures !Within(Dist2(p, q), reach) {
      DrawnInside(corners, q, b, pad);
      if reach >= 0.0 {
        if p.x < b.x0 - slop || p.x > b.x1 + slop {
          FarOnOneAxis(p.x - q.x, p.y - q.y, reach);
        } else {
          FarOnOneAxis(p.y - q.y, p.x - q.x, reach);
        }
      }
    }
  }

  /** On a rectangle's outline or near it: within the widened box and near the line of a side. */
  lemma OutlineDecides(b: Box, p: Point, reach: real)
    requires b.x0 <= b.x1 && b.y0 <= b.y1
    ensures NearOutline(b, p, reach) <==> InBox(b, p, reach) && NearSideLine(b, p, reach)
  {
    if InBox(b, p, reach) && NearSideLine(b, p, reach) {
      var cx, cy := Max(b.x0, Min(b.x1, p.x)), Max(b.y0, Min(b.y1, p.y));
      var q :=
        if Distance(p.x, b.x0) <= reach then Point(b.x0, cy)
        else if Distance(p.x, b.x1) <= reach then Point(b.x1, cy)
        else if Distance(p.y, b.y0) <= reach then Point(cx, b.y0)
        else Point(cx, b.y1);
      assert OnOutline(b, q) && Near(p, q, reach);
    }
  }

  /** In the widened box means near a point of the box. */
  lemma BoxDecides(b: Box, p: Point, reach: real)
    requires b.x0 <= b.x1 && b.y0 <= b.y1 && reach >= 0.0
    ensures InBox(b, p, reach) <==> exists q :: InBox(b, q, 0.0) && Near(p, q, reach)
  {
    if InBox(b, p, reach) {
      var q := Point(Max(b.x0, Min(b.x1, p.x)), Max(b.y0, Min(b.y1, p.y)));
      assert InBox(b, q, 0.0) && Near(p, q, reach);
    }
  }

  lemma WidenTwice(b: Box, p: Point, d: real, slop: real)
    ensures InBox(Widen(b, d), p, slop) <==> InBox(b, p, slop + d)
  {}

  lemma OffBoxNotDrawn(o: Props, p: Point, slop: real, b: Box)
    requires IsStroke(o) || IsLine(o)
    requires Corners(o) != [] ==> Bounding(b, Corners(o), Pad(o))
    requires !InBox(b, p, slop)
    ensures !Touched(Corners(o), p, Reach(o, slop))
  {
    OutsideNeverTouches(Corners(o), p, slop, Pad(o), b);
  }

  lemma OffBoxNotThere(o: Props, p: Point, slop: real)
    requires !IsStroke(o) && !IsLine(o) && !InBox(Widen(Shape(o), Widening(o)), p, slop)
    ensures !Touches(o, p, slop)
  {
    WidenTwice(Shape(o), p, Widening(o), slop);
    if IsA(o, {Rect}) { OutlineDecides(Shape(o), p, Reach(o, slop)); }
  }

  lemma OffBoxNeverTouches(o: Props, p: Point, slop: real, b: Box)
    requires Corners(o) != [] ==> Bounding(b, Corners(o), Widening(o))
    requires !IsStroke(o) ==> b == Widen(Shape(o), Widening(o))
    requires !InBox(b, p, slop)
    ensures !Touches(o, p, slop)
  {
    if IsStroke(o) || IsLine(o) {
      assert Widening(o) == Pad(o);
      OffBoxNotDrawn(o, p, slop, b);
    } else {
      OffBoxNotThere(o, p, slop);
    }
  }

  lemma InBoxDecides(o: Props, p: Point, slop: real, b: Box)
    requires !IsStroke(o) ==> b == Widen(Shape(o), Widening(o)) && InBox(b, p, slop)
    ensures Touches(o, p, slop) <==> TouchesBehind(o, p, slop)
  {
    WidenTwice(Shape(o), p, Widening(o), slop);
    if IsA(o, {Rect}) { OutlineDecides(Shape(o), p, Reach(o, slop)); }
  }

  // ---- what the band around an ellipse is ----

  lemma ScaledIs(c: Point, u: Point, rx: real, ry: real, p: Point)
    requires rx > 0.0 && ry > 0.0
    ensures p == Scaled(c, u, rx, ry) <==> u == Point(Over(p.x - c.x, rx), Over(p.y - c.y, ry))
  {
    OverIs(p.x - c.x, rx, u.x);
    OverIs(p.y - c.y, ry, u.y);
  }

  lemma OverIs(d: real, r: real, q: real)
    requires r > 0.0
    ensures d == q * r <==> q == Over(d, r)
  {
    assert Over(d, r) * r == d;
    if d == q * r { assert (q * r) / r == q; }
  }

  lemma EllipseDecides(c: Point, rx: real, ry: real, p: Point)
    requires rx > 0.0 && ry > 0.0
    ensures InEllipse(c, rx, ry, p) <==> Outness(Offset(p, c), rx, ry) <= 1.0
    ensures InsideEllipse(c, rx, ry, p) <==> Outness(Offset(p, c), rx, ry) < 1.0
    ensures OnEllipse(c, rx, ry, p) <==> Outness(Offset(p, c), rx, ry) == 1.0
  {
    var u := Point(Over(p.x - c.x, rx), Over(p.y - c.y, ry));
    ScaledIs(c, u, rx, ry, p);
    forall v | p == Scaled(c, v, rx, ry) ensures v == u { ScaledIs(c, v, rx, ry, p); }
  }

  /** The quotients decide it. */
  lemma BandDecides(b: Box, filled: bool, p: Point, reach: real)
    ensures OnBand(b, filled, p, reach) <==> NearEllipse(b, filled, p, reach)
  {
    if reach >= 0.0 { AtBandDecides(Centre(b), Radius(b.x0, b.x1), Radius(b.y0, b.y1), filled, p, reach); }
  }

  lemma AtBandDecides(c: Point, rx: real, ry: real, filled: bool, p: Point, reach: real)
    requires rx >= 1.0 && ry >= 1.0 && reach >= 0.0
    ensures AtBand(Offset(p, c), rx, ry, filled, reach)
            <==> InEllipse(c, rx + reach, ry + reach, p)
                 && (filled || !InsideEllipse(c, Max(1.0, rx - reach), Max(1.0, ry - reach), p))
  {
    EllipseDecides(c, rx + reach, ry + reach, p);
    EllipseDecides(c, Max(1.0, rx - reach), Max(1.0, ry - reach), p);
  }

  lemma OverShrinks(d: real, r: real, more: real)
    requires 0.0 < r <= more
    ensures Sq(Over(d, more)) <= Sq(Over(d, r))
  {
    var f := r / more;
    assert 0.0 < f <= 1.0 && Over(d, more) == f * Over(d, r);
    SqNonNegative(Over(d, r));
    assert f * f <= 1.0;
    SquareShrinks(f, Over(d, r));
  }

  lemma SquareShrinks(f: real, q: real)
    requires 0.0 <= f * f <= 1.0
    ensures Sq(f * q) <= Sq(q)
  {
    SqNonNegative(q);
    assert Sq(f * q) == (f * f) * Sq(q);
    SameSigns(1.0 - f * f, Sq(q));
  }

  lemma OutnessShrinks(d: Point, rx: real, ry: real, moreX: real, moreY: real)
    requires 0.0 < rx <= moreX && 0.0 < ry <= moreY
    ensures Outness(d, moreX, moreY) <= Outness(d, rx, ry)
  {
    OverShrinks(d.x, rx, moreX);
    OverShrinks(d.y, ry, moreY);
  }

  /** The outline of the ellipse itself is near. */
  lemma OutlineIsNear(b: Box, filled: bool, p: Point, reach: real)
    requires reach >= 0.0 && OnEllipse(Centre(b), Radius(b.x0, b.x1), Radius(b.y0, b.y1), p)
    ensures NearEllipse(b, filled, p, reach)
  {
    EllipseDecides(Centre(b), Radius(b.x0, b.x1), Radius(b.y0, b.y1), p);
    OutlineAtBand(Offset(p, Centre(b)), Radius(b.x0, b.x1), Radius(b.y0, b.y1), filled, reach);
    BandDecides(b, filled, p, reach);
  }

  lemma OutlineAtBand(d: Point, rx: real, ry: real, filled: bool, reach: real)
    requires rx >= 1.0 && ry >= 1.0 && reach >= 0.0 && Outness(d, rx, ry) == 1.0
    ensures AtBand(d, rx, ry, filled, reach)
  {
    OutnessShrinks(d, rx, ry, rx + reach, ry + reach);
    OutnessShrinks(d, Max(1.0, rx - reach), Max(1.0, ry - reach), rx, ry);
  }

  /** A larger reach never loses a point. */
  lemma NearEllipseGrows(b: Box, filled: bool, p: Point, reach: real, more: real)
    requires 0.0 <= reach <= more && NearEllipse(b, filled, p, reach)
    ensures NearEllipse(b, filled, p, more)
  {
    BandDecides(b, filled, p, reach);
    AtBandGrows(Offset(p, Centre(b)), Radius(b.x0, b.x1), Radius(b.y0, b.y1), filled, reach, more);
    BandDecides(b, filled, p, more);
  }

  lemma AtBandGrows(d: Point, rx: real, ry: real, filled: bool, reach: real, more: real)
    requires rx >= 1.0 && ry >= 1.0 && 0.0 <= reach <= more && AtBand(d, rx, ry, filled, reach)
    ensures AtBand(d, rx, ry, filled, more)
  {
    OutnessShrinks(d, rx + reach, ry + reach, rx + more, ry + more);
    OutnessShrinks(d, Max(1.0, rx - more), Max(1.0, ry - more), Max(1.0, rx - reach), Max(1.0, ry - reach));
  }

  // ---- tiny ellipses ----

  lemma SquareOfLarge(r: real)
    requires r > 1.0 || r < -1.0
    ensures Sq(r) > 1.0
  {
    SqNonNegative(if r > 1.0 then r - 1.0 else r + 1.0);
  }

  lemma BeyondRadius(d: real, r: real)
    requires r > 0.0 && (d > r || d < -r)
    ensures Sq(Over(d, r)) > 1.0
  {
    assert Over(d, r) * r == d;
    SquareOfLarge(Over(d, r));
  }

  /** A wide and high enough ellipse: no point off the widened box is on its band. */
  lemma OffBoxOffBand(b: Box, filled: bool, p: Point, reach: real)
    requires b.x1 - b.x0 >= 2.0 && b.y1 - b.y0 >= 2.0 && reach >= 0.0 && !InBox(b, p, reach)
    ensures !OnBand(b, filled, p, reach)
  {
    var rx, ry := Radius(b.x0, b.x1), Radius(b.y0, b.y1);
    var dx, dy := p.x - (b.x0 + rx), p.y - (b.y0 + ry);
    SqNonNegative(Over(dx, rx + reach));
    SqNonNegative(Over(dy, ry + reach));
    if p.x < b.x0 - reach || p.x > b.x1 + reach {
      BeyondRadius(dx, rx + reach);
    } else {
      BeyondRadius(dy, ry + reach);
    }
  }

  /** At the tip of the grown ellipse, on an axis on which its radius is 1. */
  lemma TipOnBand(reach: real)
    requires reach >= 0.0
    ensures Sq(Over(1.0 + reach, 1.0 + reach)) == 1.0 && Sq(Over(1.0 + reach, Max(1.0, 1.0 - reach))) >= 1.0
  {
    assert Over(1.0 + reach, 1.0 + reach) == 1.0;
    if reach > 0.0 { SquareOfLarge(1.0 + reach); }
  }

  lemma ZeroOver(r: real)
    ensures Sq(Over(0.0, r)) == 0.0
  {}

  lemma TinyHasTip(b: Box, filled: bool, reach: real) returns (p: Point)
    requires (b.x1 - b.x0 < 2.0 || b.y1 - b.y0 < 2.0) && reach >= 0.0
    ensures OnBand(b, filled, p, reach) && !InBox(b, p, reach)
  {
    var rx, ry := Radius(b.x0, b.x1), Radius(b.y0, b.y1);
    TipOnBand(reach);
    if b.x1 - b.x0 < 2.0 {
      p := Point(b.x0 + 2.0 + reach, b.y0 + ry);
      ZeroOver(ry + reach);
      ZeroOver(Max(1.0, ry - reach));
    } else {
      p := Point(b.x0 + rx, b.y0 + 2.0 + reach);
      ZeroOver(rx + reach);
      ZeroOver(Max(1.0, rx - reach));
    }
  }

  /** Exact: the box in front changes no answer for an ellipse if and only if that is 2 wide and 2 high at least. */
  lemma EllipseShortcutIff(o: Props, slop: real)
    requires IsA(o, {Ellipse}) && Reach(o, slop) >= 0.0
    ensures
      (forall p :: TouchesBehind(o, p, slop) ==> Touches(o, p, slop))
      <==> Shape(o).x1 - Shape(o).x0 >= 2.0 && Shape(o).y1 - Shape(o).y0 >= 2.0
  {
    var b, filled, reach := Shape(o), IsFilled(o), Reach(o, slop);
    if b.x1 - b.x0 >= 2.0 && b.y1 - b.y0 >= 2.0 {
      forall p | TouchesBehind(o, p, slop) ensures Touches(o, p, slop) {
        BandDecides(b, filled, p, reach);
        if !InBox(b, p, reach) { OffBoxOffBand(b, filled, p, reach); }
      }
    } else {
      var p := TinyHasTip(b, filled, reach);
      BandDecides(b, filled, p, reach);
      assert TouchesBehind(o, p, slop) && !Touches(o, p, slop);
    }
  }
}
