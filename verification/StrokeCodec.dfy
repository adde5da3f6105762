/** Strokes as differences of rounded coordinates: decoding sums them up again. */
module StrokeCodec {
  import opened Common
  import opened BoardOps
  import opened StrokeGeometry

  function NumOr(o: Props, f: Field, default: real): real {
    if f in o && o[f].Num? then o[f].n else default
  }

  function PtsOf(o: Props): seq<int> {
    if Pts in o && o[Pts].Points? then o[Pts].pts else []
  }

  /** The sum of the first `n` steps along an axis (0: x, 1: y). */
  function Sum(pts: seq<int>, axis: nat, n: nat): int
    requires axis < 2 && 2 * n <= |pts|
  {
    if n == 0 then 0 else Sum(pts, axis, n - 1) + pts[2 * (n - 1) + axis]
  }

  function PointAt(pts: seq<int>, ox: real, oy: real, i: nat): Point
    requires 2 * (i + 1) <= |pts|
  {
    Point(ox + Sum(pts, 0, i + 1) as real / 10.0, oy + Sum(pts, 1, i + 1) as real / 10.0)
  }

  /** The absolute points; a last lone number is ignored. */
  function Decoded(o: Props): seq<Point> {
    var pts := PtsOf(o);
    seq(|pts| / 2, i requires 0 <= i < |pts| / 2 => PointAt(pts, NumOr(o, X, 0.0), NumOr(o, Y, 0.0), i))
  }

  /** The first point is a step from the object's place, and every other a step from the one before, in tenths. */
  lemma DecodedStepByStep(o: Props, pts: seq<int>, x: real, y: real, i: nat)
    requires Lookup(o, Pts) == Some(Points(pts)) && NumberIs(o, X, 0.0, x) && NumberIs(o, Y, 0.0, y)
    ensures |Decoded(o)| == |pts| / 2
    ensures i < |Decoded(o)| ==>
      var from := if i == 0 then Point(x, y) else Decoded(o)[i - 1];
      Decoded(o)[i] == Point(from.x + pts[2 * i] as real / 10.0, from.y + pts[2 * i + 1] as real / 10.0)
  {
    if i < |Decoded(o)| {
      assert Decoded(o)[i] == PointAt(pts, x, y, i);
      assert i > 0 ==> Decoded(o)[i - 1] == PointAt(pts, x, y, i - 1);
      OneMoreStep(pts, 0, i, x);
      OneMoreStep(pts, 1, i, y);
    }
  }

  lemma OneMoreStep(pts: seq<int>, axis: nat, i: nat, from: real)
    requires axis < 2 && 2 * (i + 1) <= |pts|
    ensures from + Sum(pts, axis, i + 1) as real / 10.0 ==
              from + Sum(pts, axis, i) as real / 10.0 + pts[2 * i + axis] as real / 10.0
    ensures Sum(pts, axis, 0) == 0
  {
    assert (Sum(pts, axis, i) + pts[2 * i + axis]) as real == Sum(pts, axis, i) as real + pts[2 * i + axis] as real;
  }

  method DecodePoints(o: Props) returns (out: seq<Point>)
    ensures out == Decoded(o)
  {
    var pts := PtsOf(o);
    out := [];
    var x, y, i := 0, 0, 0;
    while 2 * i + 1 < |pts|
      invariant 2 * i <= |pts| && out == Decoded(o)[..i]
      invariant x == Sum(pts, 0, i) && y == Sum(pts, 1, i)
    {
      x := x + pts[2 * i];
      y := y + pts[2 * i + 1];
      out := out + [Point(NumOr(o, X, 0.0) + x as real / 10.0, NumOr(o, Y, 0.0) + y as real / 10.0)];
      i := i + 1;
    }
  }

  /** `Math.round`: to the nearest whole number, halves up. */
  function Round(r: real): int {
    (r + 0.5).Floor
  }

  function Tenths(at: real, from: real): int {
    Round((at - from) * 10.0)
  }

  function Encoded(points: seq<Point>, ox: real, oy: real): seq<int> {
    seq(2 * |points|, k requires 0 <= k < 2 * |points| =>
      if k % 2 == 0 then Tenths(points[k / 2].x, ox) - (if k < 2 then 0 else Tenths(points[k / 2 - 1].x, ox))
      else Tenths(points[k / 2].y, oy) - (if k < 2 then 0 else Tenths(points[k / 2 - 1].y, oy)))
  }

  method EncodePoints(points: seq<Point>, ox: real, oy: real) returns (out: seq<int>)
    ensures out == Encoded(points, ox, oy)
  {
    out := [];
    var px, py := 0, 0;
    for i := 0 to |points|
      invariant out == Encoded(points, ox, oy)[..2 * i]
      invariant i == 0 ==> px == 0 && py == 0
      invariant i > 0 ==> px == Tenths(points[i - 1].x, ox) && py == Tenths(points[i - 1].y, oy)
    {
      var x, y := Tenths(points[i].x, ox), Tenths(points[i].y, oy);
      ghost var all := Encoded(points, ox, oy);
      assert (2 * i) / 2 == i && (2 * i + 1) / 2 == i && (2 * i) % 2 == 0 && (2 * i + 1) % 2 == 1;
      assert all[2 * i] == x - px && all[2 * i + 1] == y - py;
      out := out + [x - px, y - py];
      px, py := x, y;
    }
  }

  /** The steps telescope: errors do not add up along a stroke. */
  lemma {:induction false} SumEncoded(points: seq<Point>, ox: real, oy: real, n: nat)
    requires 0 < n <= |points|
    ensures Sum(Encoded(points, ox, oy), 0, n) == Tenths(points[n - 1].x, ox)
    ensures Sum(Encoded(points, ox, oy), 1, n) == Tenths(points[n - 1].y, oy)
  {
    var m := n - 1;
    assert (2 * m) / 2 == m && (2 * m + 1) / 2 == m && (2 * m) % 2 == 0 && (2 * m + 1) % 2 == 1;
    if n > 1 { SumEncoded(points, ox, oy, n - 1); }
  }

  /** Half a tenth away at most; from the middle of two tenths, up. */
  predicate Rounded(at: real, exact: real) {
    -0.05 < at - exact <= 0.05
  }

  lemma TenthsClose(at: real, from: real)
    ensures Rounded(from + Tenths(at, from) as real / 10.0, at)
  {
    var r := (at - from) * 10.0 + 0.5;
    assert r.Floor as real <= r < r.Floor as real + 1.0;
  }

  lemma TenthsExact(from: real, tenths: int)
    ensures Tenths(from + tenths as real / 10.0, from) == tenths
  {
    assert (from + tenths as real / 10.0 - from) * 10.0 == tenths as real;
    assert (tenths as real + 0.5).Floor == tenths;
  }

  function WithStroke(o: Props, pts: seq<int>): Props {
    o[Pts := Points(pts)]
  }

  lemma PointOfEncoded(points: seq<Point>, ox: real, oy: real, i: nat)
    requires i < |points|
    ensures
      var q := PointAt(Encoded(points, ox, oy), ox, oy, i);
      Rounded(q.x, points[i].x) && Rounded(q.y, points[i].y)
  {
    SumEncoded(points, ox, oy, i + 1);
    TenthsClose(points[i].x, ox);
    TenthsClose(points[i].y, oy);
  }

  /** Encoding at the object's own position and decoding rounds every point to tenths from there, axis by axis. */
  lemma DecodeOfEncode(o: Props, points: seq<Point>)
    ensures
      var back := Decoded(WithStroke(o, Encoded(points, NumOr(o, X, 0.0), NumOr(o, Y, 0.0))));
      |back| == |points| && forall i :: 0 <= i < |points| ==>
        Rounded(back[i].x, points[i].x) && Rounded(back[i].y, points[i].y)
  {
    var ox, oy := NumOr(o, X, 0.0), NumOr(o, Y, 0.0);
    var pts := Encoded(points, ox, oy);
    var back := Decoded(WithStroke(o, pts));
    assert |back| == |points|;
    forall i | 0 <= i < |points|
      ensures Rounded(back[i].x, points[i].x) && Rounded(back[i].y, points[i].y)
    {
      assert back[i] == PointAt(pts, ox, oy, i);
      PointOfEncoded(points, ox, oy, i);
    }
  }

  lemma TenthsOfDecoded(o: Props, i: nat)
    requires 2 * (i + 1) <= |PtsOf(o)|
    ensures Tenths(Decoded(o)[i].x, NumOr(o, X, 0.0)) == Sum(PtsOf(o), 0, i + 1)
    ensures Tenths(Decoded(o)[i].y, NumOr(o, Y, 0.0)) == Sum(PtsOf(o), 1, i + 1)
  {
    assert Decoded(o)[i] == PointAt(PtsOf(o), NumOr(o, X, 0.0), NumOr(o, Y, 0.0), i);
    TenthsExact(NumOr(o, X, 0.0), Sum(PtsOf(o), 0, i + 1));
    TenthsExact(NumOr(o, Y, 0.0), Sum(PtsOf(o), 1, i + 1));
  }

  /** And decoding then encoding gives back the very same steps. */
  lemma EncodeOfDecode(o: Props)
    requires |PtsOf(o)| % 2 == 0
    ensures Encoded(Decoded(o), NumOr(o, X, 0.0), NumOr(o, Y, 0.0)) == PtsOf(o)
  {
    var ox, oy, pts, points := NumOr(o, X, 0.0), NumOr(o, Y, 0.0), PtsOf(o), Decoded(o);
    forall k | 0 <= k < |pts| ensures Encoded(points, ox, oy)[k] == pts[k] {
      var i := k / 2;
      TenthsOfDecoded(o, i);
      if i > 0 { TenthsOfDecoded(o, i - 1); }
    }
  }
}
