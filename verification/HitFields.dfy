/** Where an object is and what touches it, said of its fields. */
module HitFields {
  import opened Common
  import opened BoardOps
  import opened StrokeGeometry
  import opened StrokeCodec
  import opened HitTest

  predicate KindIs(o: Props, kind: BoardKind) {
    Lookup(o, Kind) == Some(KindOf(kind))
  }

  /** The field holds this string, or none and this one is empty. */
  predicate StringIs(o: Props, f: Field, s: string) {
    if f in o && o[f].Str? then o[f] == Str(s) else s == ""
  }

  // ---- the lines of a text ----

  function Joined(lines: seq<string>): string
    requires lines != []
  {
    if |lines| == 1 then lines[0] else lines[0] + "\n" + Joined(lines[1..])
  }

  predicate NoNewlines(lines: seq<string>) {
    forall l :: l in lines ==> '\n' !in l
  }

  lemma {:induction false} LinesHaveNone(text: string)
    ensures NoNewlines(Lines(text))
  {
    if text != "" {
      LinesHaveNone(text[1..]);
      var rest := Lines(text[1..]);
      assert rest[0] in rest && forall l :: l in rest[1..] ==> l in rest;
    }
  }

  lemma {:induction false} LinesAreJoined(text: string)
    ensures Joined(Lines(text)) == text
  {
    if text != "" {
      LinesAreJoined(text[1..]);
      var rest := Lines(text[1..]);
      assert text == [text[0]] + text[1..];
      if text[0] == '\n' {
        assert ([""] + rest)[1..] == rest;
      } else {
        JoinedFirst(text[0], rest);
      }
    }
  }

  lemma JoinedFirst(c: char, lines: seq<string>)
    requires lines != []
    ensures Joined([[c] + lines[0]] + lines[1..]) == [c] + Joined(lines)
  {
    assert ([[c] + lines[0]] + lines[1..])[1..] == lines[1..];
  }

  lemma {:induction false} LinesOfOne(line: string)
    requires '\n' !in line
    ensures Lines(line) == [line]
  {
    if line != "" {
      LinesOfOne(line[1..]);
      assert line == [line[0]] + line[1..];
    }
  }

  lemma {:induction false} LinesOfMore(line: string, rest: string)
    requires '\n' !in line
    ensures Lines(line + "\n" + rest) == [line] + Lines(rest)
  {
    var text := line + "\n" + rest;
    if line == "" {
      assert text[1..] == rest;
    } else {
      assert text[1..] == line[1..] + "\n" + rest;
      LinesOfMore(line[1..], rest);
      assert line == [line[0]] + line[1..];
    }
  }

  /** Lines without newlines, joined by newlines, are those lines again: a text has just this one way to be split. */
  lemma {:induction false} LinesOfJoined(lines: seq<string>)
    requires lines != [] && NoNewlines(lines)
    ensures Lines(Joined(lines)) == lines
  {
    assert lines[0] in lines;
    if |lines| == 1 {
      LinesOfOne(lines[0]);
    } else {
      forall l | l in lines[1..] ensures l in lines {}
      LinesOfJoined(lines[1..]);
      LinesOfMore(lines[0], Joined(lines[1..]));
      assert lines == [lines[0]] + lines[1..];
    }
  }

  /** As long as some line and no shorter than any, or 1 when all are empty. */
  predicate LongestIs(lines: seq<string>, n: nat) {
    && (forall l :: l in lines ==> |l| <= n)
    && (if forall l :: l in lines ==> l == "" then n == 1 else exists l :: l in lines && |l| == n)
  }

  lemma {:induction false} LongestOfLines(lines: seq<string>)
    ensures Longest(lines) >= 1 && LongestIs(lines, Longest(lines))
  {
    if lines != [] {
      LongestOfLines(lines[1..]);
      assert forall l :: l in lines <==> l == lines[0] || l in lines[1..];
      assert lines[0] in lines;
    }
  }

  // ---- how big an object is ----

  /** These are its lines, the length of the longest and the size of its letters. */
  predicate TextIs(o: Props, lines: seq<string>, n: nat, size: real) {
    && lines != [] && NoNewlines(lines) && StringIs(o, Text, Joined(lines)) && LongestIs(lines, n)
    && NumberIs(o, Size, 20.0, size)
  }

  /** 0.6 of the letters' size wide for every letter of the longest line, and 1.25 of it high for every line. */
  predicate Estimated(lines: nat, longest: nat, size: real, w: real, h: real) {
    w == longest as real * size * 0.6 && h == lines as real * size * 1.25
  }

  ghost predicate TextMeasures(o: Props, w: real, h: real) {
    exists lines, n: nat, size :: TextIs(o, lines, n, size) && Estimated(|lines|, n, size, w, h)
  }

  ghost predicate Measures(o: Props, w: real, h: real) {
    if KindIs(o, TextBox) then TextMeasures(o, w, h) else NumberIs(o, W, 0.0, w) && NumberIs(o, H, 0.0, h)
  }

  lemma LongestUnique(lines: seq<string>, n: nat, m: nat)
    requires LongestIs(lines, n) && LongestIs(lines, m)
    ensures n == m
  {}

  lemma TextIsUnique(o: Props, lines: seq<string>, n: nat, size: real)
    requires TextIs(o, lines, n, size)
    ensures lines == LinesOf(o) && n == Longest(LinesOf(o)) && size == NumOr(o, Size, 20.0)
  {
    LinesOfJoined(lines);
    LongestOfLines(lines);
    LongestUnique(lines, n, Longest(lines));
  }

  lemma TextHas(o: Props)
    ensures TextIs(o, LinesOf(o), Longest(LinesOf(o)), NumOr(o, Size, 20.0))
  {
    var text := if Text in o && o[Text].Str? then o[Text].s else "";
    LinesAreJoined(text);
    LinesHaveNone(text);
    LongestOfLines(LinesOf(o));
  }

  lemma TextSizeIs(o: Props, w: real, h: real)
    ensures Point(w, h) == TextSize(o)
            <==> Estimated(|LinesOf(o)|, Longest(LinesOf(o)), NumOr(o, Size, 20.0), w, h)
  {}

  lemma TextMeasuresIff(o: Props, w: real, h: real)
    ensures TextMeasures(o, w, h)
            <==> Estimated(|LinesOf(o)|, Longest(LinesOf(o)), NumOr(o, Size, 20.0), w, h)
  {
    TextHas(o);
    if lines, n: nat, size :| TextIs(o, lines, n, size) && Estimated(|lines|, n, size, w, h) {
      TextIsUnique(o, lines, n, size);
    }
  }

  /** Exact: every object has one size. */
  lemma MeasuresIff(o: Props, w: real, h: real)
    ensures Measures(o, w, h)
            <==> Point(w, h) == if IsA(o, {TextBox}) then TextSize(o) else Point(NumOr(o, W, 0.0), NumOr(o, H, 0.0))
  {
    TextMeasuresIff(o, w, h);
    TextSizeIs(o, w, h);
  }

  lemma EndIs(o: Props, x: real, y: real, w: real, h: real)
    requires NumberIs(o, X, 0.0, x) && NumberIs(o, Y, 0.0, y) && Measures(o, w, h)
    ensures Start(o) == Point(x, y) && End(o) == Point(x + w, y + h)
  {
    MeasuresIff(o, w, h);
  }

  // ---- where it is ----

  /** From one corner to the other, whichever way the object was drawn. */
  function Spanned(x: real, y: real, w: real, h: real): Box {
    Box(
      if w < 0.0 then x + w else x, if h < 0.0 then y + h else y,
      if w < 0.0 then x else x + w, if h < 0.0 then y else y + h)
  }

  lemma ShapeIs(o: Props, x: real, y: real, w: real, h: real)
    requires NumberIs(o, X, 0.0, x) && NumberIs(o, Y, 0.0, y) && Measures(o, w, h)
    ensures Shape(o) == Spanned(x, y, w, h)
  {
    EndIs(o, x, y, w, h);
  }

  /** The bounds of whatever is not a stroke: lines and outlines reach half their width beyond their corners. */
  lemma BoundsInFields(o: Props, x: real, y: real, w: real, h: real, size: real)
    requires !KindIs(o, Pen) && !KindIs(o, Hl)
    requires NumberIs(o, X, 0.0, x) && NumberIs(o, Y, 0.0, y) && Measures(o, w, h) && NumberIs(o, Size, 2.0, size)
    ensures !IsStroke(o)
    ensures
      var r := Spanned(x, y, w, h);
      Widen(Shape(o), Widening(o)) ==
        if KindIs(o, Line) || KindIs(o, Arrow) || KindIs(o, Rect) || KindIs(o, Ellipse)
        then Box(r.x0 - size / 2.0, r.y0 - size / 2.0, r.x1 + size / 2.0, r.y1 + size / 2.0)
        else r
  {
    ShapeIs(o, x, y, w, h);
  }

  /** Strokes reach half their width beyond their points. */
  lemma StrokeWidening(o: Props, size: real)
    requires (KindIs(o, Pen) || KindIs(o, Hl)) && NumberIs(o, Size, 2.0, size)
    ensures IsStroke(o) && Corners(o) == Decoded(o) && Widening(o) == size / 2.0
  {}

  // ---- what touches it ----

  predicate Around(r: Box, p: Point, d: real) {
    r.x0 - d <= p.x && p.x <= r.x1 + d && r.y0 - d <= p.y && p.y <= r.y1 + d
  }

  /** Texts, notes and pictures: in the box, or as near as the slop. */
  lemma BoxTouched(o: Props, p: Point, slop: real, x: real, y: real, w: real, h: real)
    requires KindIs(o, TextBox) || KindIs(o, Note) || KindIs(o, Image)
    requires NumberIs(o, X, 0.0, x) && NumberIs(o, Y, 0.0, y) && Measures(o, w, h)
    ensures Touches(o, p, slop) <==> Around(Spanned(x, y, w, h), p, slop)
  {
    ShapeIs(o, x, y, w, h);
  }

  predicate FilledIs(o: Props, filled: bool) {
    filled <==> Fill in o && o[Fill].Str? && o[Fill].s != ""
  }

  /** Rectangles: in the box when filled, else near a point of the outline, both ways half the line's width further. */
  lemma RectTouched(o: Props, p: Point, slop: real, x: real, y: real, w: real, h: real, size: real, filled: bool)
    requires KindIs(o, Rect) && FilledIs(o, filled)
    requires NumberIs(o, X, 0.0, x) && NumberIs(o, Y, 0.0, y) && Measures(o, w, h) && NumberIs(o, Size, 2.0, size)
    ensures
      var r, reach := Spanned(x, y, w, h), slop + size / 2.0;
      Touches(o, p, slop) <==>
        if filled then Around(r, p, reach)
        else exists q: Point ::
          && Around(r, q, 0.0) && (q.x == r.x0 || q.x == r.x1 || q.y == r.y0 || q.y == r.y1)
          && -reach <= p.x - q.x <= reach && -reach <= p.y - q.y <= reach
  {
    var r, reach := Spanned(x, y, w, h), slop + size / 2.0;
    ShapeIs(o, x, y, w, h);
    if !filled {
      forall q: Point ensures OnOutline(r, q) && Near(p, q, reach) <==>
        && Around(r, q, 0.0) && (q.x == r.x0 || q.x == r.x1 || q.y == r.y0 || q.y == r.y1)
        && -reach <= p.x - q.x <= reach && -reach <= p.y - q.y <= reach {}
    }
  }

  /** In a straight line. */
  predicate NearerThan(p: Point, q: Point, reach: real) {
    reach >= 0.0 && (p.x - q.x) * (p.x - q.x) + (p.y - q.y) * (p.y - q.y) <= reach * reach
  }

  /** Near the point a part `t` of the way from (x, y) to (x + w, y + h). */
  predicate NearPart(p: Point, x: real, y: real, w: real, h: real, t: real, reach: real) {
    0.0 <= t <= 1.0 && NearerThan(p, Point(x + t * w, y + t * h), reach)
  }

  ghost predicate NearSpan(p: Point, x: real, y: real, w: real, h: real, reach: real) {
    exists t :: NearPart(p, x, y, w, h, t, reach)
  }

  lemma NearPartIs(p: Point, a: Point, e: Point, t: real, reach: real)
    ensures NearPart(p, a.x, a.y, e.x - a.x, e.y - a.y, t, reach)
            <==> 0.0 <= t <= 1.0 && Within(Dist2(p, Along(a, e, t)), reach)
  {}

  lemma NearSpanIs(p: Point, a: Point, e: Point, reach: real)
    ensures NearSpan(p, a.x, a.y, e.x - a.x, e.y - a.y, reach)
            <==> exists q :: OnSegment(q, a, e) && Within(Dist2(p, q), reach)
  {
    if NearSpan(p, a.x, a.y, e.x - a.x, e.y - a.y, reach) {
      var t :| NearPart(p, a.x, a.y, e.x - a.x, e.y - a.y, t, reach);
      NearPartIs(p, a, e, t, reach);
      assert OnSegment(Along(a, e, t), a, e);
    }
    if exists q :: OnSegment(q, a, e) && Within(Dist2(p, q), reach) {
      var q :| OnSegment(q, a, e) && Within(Dist2(p, q), reach);
      var t: real :| 0.0 <= t <= 1.0 && q == Along(a, e, t);
      NearPartIs(p, a, e, t, reach);
    }
  }

  predicate SpanWithin(p: Point, a: Point, e: Point, reach: real) {
    Within(SegmentDist2(p, a, e), reach)
  }

  lemma SpanDecides(p: Point, a: Point, e: Point, reach: real)
    ensures SpanWithin(p, a, e, reach) <==> NearSpan(p, a.x, a.y, e.x - a.x, e.y - a.y, reach)
  {
    NearSpanIs(p, a, e, reach);
    SegmentDecides(p, a, e, reach);
  }

  /** Lines and arrows: near a point between their ends. */
  lemma LineTouched(o: Props, p: Point, slop: real, x: real, y: real, w: real, h: real, size: real)
    requires KindIs(o, Line) || KindIs(o, Arrow)
    requires NumberIs(o, X, 0.0, x) && NumberIs(o, Y, 0.0, y) && Measures(o, w, h) && NumberIs(o, Size, 2.0, size)
    ensures Touches(o, p, slop) <==> NearSpan(p, x, y, w, h, slop + size / 2.0)
  {
    EndIs(o, x, y, w, h);
    SpanDecides(p, Start(o), End(o), slop + size / 2.0);
    LineDecides(Start(o), End(o), p, slop + size / 2.0);
  }

  /** Near the line from one point of a stroke to the next. */
  ghost predicate NearPiece(p: Point, a: Point, e: Point, reach: real) {
    NearSpan(p, a.x, a.y, e.x - a.x, e.y - a.y, reach)
  }

  /** Strokes: near the only point, or a piece. */
  lemma StrokeTouched(o: Props, p: Point, slop: real, size: real)
    requires (KindIs(o, Pen) || KindIs(o, Hl)) && NumberIs(o, Size, 2.0, size)
    ensures
      var pts, reach := Decoded(o), slop + size / 2.0;
      Touches(o, p, slop) <==>
        || (|pts| == 1 && NearerThan(p, pts[0], reach))
        || exists i :: 0 < i < |pts| && NearPiece(p, pts[i - 1], pts[i], reach)
  {
    var pts, reach := Decoded(o), slop + size / 2.0;
    if |pts| == 1 { OnePoint(pts, p, reach); } else { Pieces(pts, p, reach); }
  }

  lemma OnePoint(pts: seq<Point>, p: Point, reach: real)
    requires |pts| == 1
    ensures Touched(pts, p, reach) <==> NearerThan(p, pts[0], reach)
  {
    assert Drawn(pts, pts[0]);
  }

  lemma Pieces(pts: seq<Point>, p: Point, reach: real)
    requires |pts| != 1
    ensures Touched(pts, p, reach) <==> exists i :: 0 < i < |pts| && NearPiece(p, pts[i - 1], pts[i], reach)
  {
    SegmentsDecide(pts, p, reach);
    forall i | 0 < i < |pts|
      ensures Within(SegmentDist2(p, pts[i - 1], pts[i]), reach) <==> NearPiece(p, pts[i - 1], pts[i], reach)
    {
      SpanDecides(p, pts[i - 1], pts[i], reach);
    }
  }

  function Larger(a: real, b: real): real { if a < b then b else a }

  /** The band around an ellipse in a box; its radii are 1 at least. */
  ghost predicate OnBandOf(r: Box, filled: bool, p: Point, reach: real) {
    var rx, ry := Larger(1.0, (r.x1 - r.x0) / 2.0), Larger(1.0, (r.y1 - r.y0) / 2.0);
    var c := Point(r.x0 + rx, r.y0 + ry);
    && InEllipse(c, rx + reach, ry + reach, p)
    && (filled || !InsideEllipse(c, Larger(1.0, rx - reach), Larger(1.0, ry - reach), p))
  }

  lemma NearEllipseIs(r: Box, filled: bool, p: Point, reach: real)
    requires reach >= 0.0
    ensures NearEllipse(r, filled, p, reach) <==> OnBandOf(r, filled, p, reach)
  {
    var rx, ry := Radius(r.x0, r.x1), Radius(r.y0, r.y1);
    LargerIs(1.0, (r.x1 - r.x0) / 2.0);
    LargerIs(1.0, (r.y1 - r.y0) / 2.0);
    LargerIs(1.0, rx - reach);
    LargerIs(1.0, ry - reach);
    assert Centre(r) == Point(r.x0 + rx, r.y0 + ry);
  }

  lemma LargerIs(a: real, b: real)
    ensures Larger(a, b) == Max(a, b)
  {}

  lemma EllipseCase(o: Props, p: Point, slop: real, size: real)
    requires KindIs(o, Ellipse) && NumberIs(o, Size, 2.0, size)
    ensures
      var r, reach := Shape(o), slop + size / 2.0;
      Touches(o, p, slop) <==> Around(r, p, reach) && NearEllipse(r, IsFilled(o), p, reach)
  {}

  /** Ellipses: in the box, in the ellipse grown by the reach and, unless filled, not inside the one shrunk by it. */
  lemma EllipseTouched(o: Props, p: Point, slop: real, x: real, y: real, w: real, h: real, size: real, filled: bool)
    requires KindIs(o, Ellipse) && FilledIs(o, filled)
    requires NumberIs(o, X, 0.0, x) && NumberIs(o, Y, 0.0, y) && Measures(o, w, h) && NumberIs(o, Size, 2.0, size)
    requires slop + size / 2.0 >= 0.0
    ensures
      var r, reach := Spanned(x, y, w, h), slop + size / 2.0;
      Touches(o, p, slop) <==> Around(r, p, reach) && OnBandOf(r, filled, p, reach)
  {
    ShapeIs(o, x, y, w, h);
    EllipseCase(o, p, slop, size);
    NearEllipseIs(Shape(o), filled, p, slop + size / 2.0);
  }
}
