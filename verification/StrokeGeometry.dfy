/** The distance from a point to a segment is the least to any of its points. */
module StrokeGeometry {
  datatype Point = Point(x: real, y: real)

  function Sq(r: real): real { r * r }

  /** Distances are compared by their squares. */
  function Dist2(p: Point, q: Point): real {
    Sq(p.x - q.x) + Sq(p.y - q.y)
  }

  function Along(a: Point, b: Point, t: real): Point {
    Point(a.x + t * (b.x - a.x), a.y + t * (b.y - a.y))
  }

  function Clamp(t: real): real {
    if t < 0.0 then 0.0 else if t > 1.0 then 1.0 else t
  }

  /** Where on a segment (0 at its start, 1 at its end) the nearest point is, from the offsets to its start. */
  function Projected(px: real, py: real, dx: real, dy: real): (t: real)
    ensures 0.0 <= t <= 1.0
  {
    var len := Sq(dx) + Sq(dy);
    if len == 0.0 then 0.0 else Clamp((px * dx + py * dy) / len)
  }

  function NearestAt(p: Point, a: Point, b: Point): (t: real)
    ensures 0.0 <= t <= 1.0
  {
    Projected(p.x - a.x, p.y - a.y, b.x - a.x, b.y - a.y)
  }

  function OffsetDist2(px: real, py: real, dx: real, dy: real, t: real): real {
    Sq(px - t * dx) + Sq(py - t * dy)
  }

  /** The squared distance from `p` to the point at `t` along the line a..b. */
  function Dist2At(p: Point, a: Point, b: Point, t: real): real {
    OffsetDist2(p.x - a.x, p.y - a.y, b.x - a.x, b.y - a.y, t)
  }

  function SegmentDist2(p: Point, a: Point, b: Point): real {
    Dist2At(p, a, b, NearestAt(p, a, b))
  }

  lemma SqNonNegative(r: real)
    ensures Sq(r) >= 0.0 && (Sq(r) == 0.0 ==> r == 0.0)
  {
    if r != 0.0 { assert (r * r) / r == r; }
  }

  lemma SameSigns(a: real, b: real)
    requires (a >= 0.0 && b >= 0.0) || (a <= 0.0 && b <= 0.0)
    ensures a * b >= 0.0
  {}

  /** On one axis, at offset `p` from the segment's start: what moving from `t` to `s` adds to the squared distance. */
  lemma OneAxis(p: real, d: real, s: real, t: real)
    ensures Sq(p - s * d) - Sq(p - t * d) == (s - t) * (Sq(d) * (s + t) - 2.0 * (p * d))
  {}

  lemma TwoAxes(k: real, m: real, xx: real, yy: real, ux: real, uy: real)
    ensures k * (xx * m - 2.0 * ux) + k * (yy * m - 2.0 * uy) == k * ((xx + yy) * m - 2.0 * (ux + uy))
  {}

  function Change(u: real, len: real, s: real, t: real): real {
    (s - t) * (len * (s + t) - 2.0 * u)
  }

  /** Both axes: with u = (p - a)·d and len = d·d. */
  lemma DistanceChange(px: real, py: real, dx: real, dy: real, s: real, t: real)
    ensures OffsetDist2(px, py, dx, dy, s) - OffsetDist2(px, py, dx, dy, t)
            == Change(px * dx + py * dy, Sq(dx) + Sq(dy), s, t)
  {
    OneAxis(px, dx, s, t);
    OneAxis(py, dy, s, t);
    TwoAxes(s - t, s + t, Sq(dx), Sq(dy), px * dx, py * dy);
  }

  lemma ChangeNonNegative(u: real, len: real, s: real, t: real)
    requires len > 0.0 && 0.0 <= s <= 1.0 && t == Clamp(u / len)
    ensures Change(u, len, s, t) >= 0.0
  {
    var q := u / len;
    var f := s + t - 2.0 * q;
    assert u == q * len;
    assert len * (s + t) - 2.0 * u == len * f;
    assert (s - t) * f >= 0.0 by {
      if q < 0.0 || q > 1.0 {
        SameSigns(s - t, f);
      } else {
        SqNonNegative(s - q);
      }
    }
    Regroup(s - t, len, f);
    SameSigns(len, (s - t) * f);
  }

  lemma Regroup(a: real, b: real, c: real)
    ensures a * (b * c) == b * (a * c)
  {}

  lemma Dist2AtIsDist2(p: Point, a: Point, b: Point, t: real)
    ensures Dist2At(p, a, b, t) == Dist2(p, Along(a, b, t))
  {
    assert p.x - Along(a, b, t).x == (p.x - a.x) - t * (b.x - a.x);
    assert p.y - Along(a, b, t).y == (p.y - a.y) - t * (b.y - a.y);
  }

  lemma LeastAt(px: real, py: real, dx: real, dy: real, s: real, t: real)
    requires 0.0 <= s <= 1.0
    requires t == Projected(px, py, dx, dy)
    ensures OffsetDist2(px, py, dx, dy, t) <= OffsetDist2(px, py, dx, dy, s)
  {
    SqNonNegative(dx);
    SqNonNegative(dy);
    var len := Sq(dx) + Sq(dy);
    if len == 0.0 {
      assert dx == 0.0 && dy == 0.0;
    } else {
      DistanceChange(px, py, dx, dy, s, t);
      ChangeNonNegative(px * dx + py * dy, len, s, t);
    }
  }

  /** `segmentDistance` is the distance to the segment: no point of it is nearer. */
  lemma SegmentDist2IsLeast(p: Point, a: Point, b: Point, s: real)
    requires 0.0 <= s <= 1.0
    ensures SegmentDist2(p, a, b) <= Dist2At(p, a, b, s)
  {
    LeastAt(p.x - a.x, p.y - a.y, b.x - a.x, b.y - a.y, s, NearestAt(p, a, b));
  }
}

/** The simplifier: a loop over an explicit stack, and the recursion it unrolls. */
module StrokeSimplifier {
  import opened StrokeGeometry
  import opened Common

  /** "Farther than `tolerance`", squared: every distance is farther than a negative one. */
  function Threshold(tolerance: real): real {
    if tolerance < 0.0 then -1.0 else Sq(tolerance)
  }

  predicate WithinTolerance(p: Point, a: Point, b: Point, tolerance: real) {
    SegmentDist2(p, a, b) <= Threshold(tolerance)
  }

  /** The point between `a` and `i` farthest from the line a..b, the first such, if it is farther than `tolerance`. */
  function Farthest(points: seq<Point>, a: nat, b: nat, i: nat, tolerance: real): (r: Option<nat>)
    requires a < i <= b < |points|
    ensures r.Some? ==> a < r.value < i
  {
    if i == a + 1 then None
    else
      var r := Farthest(points, a, b, i - 1, tolerance);
      if SegmentDist2(points[i - 1], points[a], points[b]) > Far(points, a, b, r, tolerance) then Some(i - 1) else r
  }

  lemma {:induction false} FarthestIs(points: seq<Point>, a: nat, b: nat, i: nat, tolerance: real)
    requires a < i <= b < |points|
    ensures
      var r := Farthest(points, a, b, i, tolerance);
      && (r.None? ==> forall j :: a < j < i ==> WithinTolerance(points[j], points[a], points[b], tolerance))
      && (r.Some? ==>
            && !WithinTolerance(points[r.value], points[a], points[b], tolerance)
            && (forall j :: a < j < i ==>
                  SegmentDist2(points[j], points[a], points[b]) <= SegmentDist2(points[r.value], points[a], points[b]))
            && (forall j :: a < j < r.value ==>
                  SegmentDist2(points[j], points[a], points[b]) < SegmentDist2(points[r.value], points[a], points[b])))
  {
    if i > a + 1 { FarthestIs(points, a, b, i - 1, tolerance); }
  }

  function Far(points: seq<Point>, a: nat, b: nat, r: Option<nat>, tolerance: real): real
    requires a < |points| && b < |points| && (r.Some? ==> r.value < |points|)
  {
    if r.None? then Threshold(tolerance) else SegmentDist2(points[r.value], points[a], points[b])
  }

  predicate Increasing(s: seq<nat>) {
    forall i, j :: 0 <= i < j < |s| ==> s[i] < s[j]
  }

  /** The indices kept from `a` to `b`, both included: split at the farthest point until all the rest is near. */
  function Chain(points: seq<Point>, a: nat, b: nat, tolerance: real): (r: seq<nat>)
    requires a < b < |points|
    ensures |r| >= 2 && r[0] == a && r[|r| - 1] == b
    ensures Increasing(r)
    decreases b - a
  {
    var best := Farthest(points, a, b, b, tolerance);
    if best.None? then [a, b]
    else
      var left, right := Chain(points, a, best.value, tolerance), Chain(points, best.value, b, tolerance);
      left + right[1..]
  }

  function Pick(points: seq<Point>, kept: seq<nat>): (r: seq<Point>)
    requires forall k :: 0 <= k < |kept| ==> kept[k] < |points|
    ensures |r| == |kept| && forall k :: 0 <= k < |r| ==> r[k] == points[kept[k]]
  {
    seq(|kept|, k requires 0 <= k < |kept| => points[kept[k]])
  }

  lemma ChainBounds(points: seq<Point>, a: nat, b: nat, tolerance: real)
    requires a < b < |points|
    ensures forall i :: i in Chain(points, a, b, tolerance) ==> a <= i <= b
  {}

  /** What the whole call keeps. */
  function Kept(points: seq<Point>, tolerance: real): (r: seq<nat>)
    requires |points| > 2
    ensures forall k :: 0 <= k < |r| ==> r[k] < |points|
  {
    ChainBounds(points, 0, |points| - 1, tolerance);
    Chain(points, 0, |points| - 1, tolerance)
  }

  // ---- the stack ----

  predicate Spans(stack: seq<(nat, nat)>, n: nat) {
    forall k :: 0 <= k < |stack| ==> stack[k].0 < stack[k].1 < n
  }

  ghost predicate OnStack(points: seq<Point>, stack: seq<(nat, nat)>, tolerance: real, i: nat)
    requires Spans(stack, |points|)
  {
    exists k :: 0 <= k < |stack| && i in Chain(points, stack[k].0, stack[k].1, tolerance)
  }

  /** Each span can still be split into single steps; splitting one uses up one. */
  function Work(stack: seq<(nat, nat)>): int {
    if stack == [] then 0
    else
      var (a, b) := stack[|stack| - 1];
      Work(stack[..|stack| - 1]) + 2 * (b as int - a as int) - 1
  }

  lemma {:induction false} WorkNonNegative(stack: seq<(nat, nat)>, n: nat)
    requires Spans(stack, n)
    ensures Work(stack) >= |stack|
  {
    if stack != [] { WorkNonNegative(stack[..|stack| - 1], n); }
  }

  lemma WorkSplit(rest: seq<(nat, nat)>, a: nat, m: nat, b: nat)
    ensures Work(rest + [(a, m), (m, b)]) == Work(rest + [(a, b)]) - 1
  {
    assert (rest + [(a, m), (m, b)])[..|rest| + 1] == rest + [(a, m)];
    assert (rest + [(a, m)])[..|rest|] == rest;
    assert (rest + [(a, b)])[..|rest|] == rest;
  }

  lemma OnStackSnoc(points: seq<Point>, rest: seq<(nat, nat)>, top: (nat, nat), tolerance: real, i: nat)
    requires Spans(rest, |points|) && top.0 < top.1 < |points|
    ensures OnStack(points, rest + [top], tolerance, i) <==>
            OnStack(points, rest, tolerance, i) || i in Chain(points, top.0, top.1, tolerance)
  {
    var stack := rest + [top];
    if OnStack(points, rest, tolerance, i) {
      var k :| 0 <= k < |rest| && i in Chain(points, rest[k].0, rest[k].1, tolerance);
      assert stack[k] == rest[k];
    }
    assert stack[|rest|] == top;
  }

  /** The shared point between two chains stands in the first. */
  lemma InJoined(left: seq<nat>, right: seq<nat>, i: nat)
    requires left != [] && right != [] && left[|left| - 1] == right[0]
    ensures i in left + right[1..] <==> i in left || i in right
  {
    assert right == [right[0]] + right[1..];
    assert right[0] in left;
  }

  lemma ChainWhole(points: seq<Point>, a: nat, b: nat, tolerance: real)
    requires a < b < |points| && Farthest(points, a, b, b, tolerance).None?
    ensures Chain(points, a, b, tolerance) == [a, b]
  {}

  lemma ChainJoined(points: seq<Point>, a: nat, b: nat, tolerance: real, m: nat)
    requires a < b < |points| && Farthest(points, a, b, b, tolerance) == Some(m)
    ensures Chain(points, a, b, tolerance) == Chain(points, a, m, tolerance) + Chain(points, m, b, tolerance)[1..]
  {}

  lemma ChainSplit(points: seq<Point>, a: nat, b: nat, tolerance: real, i: nat)
    requires a < b < |points|
    ensures
      var best := Farthest(points, a, b, b, tolerance);
      i in Chain(points, a, b, tolerance) <==>
      if best.None? then i == a || i == b
      else i in Chain(points, a, best.value, tolerance) || i in Chain(points, best.value, b, tolerance)
  {
    var best := Farthest(points, a, b, b, tolerance);
    if best.None? {
      ChainWhole(points, a, b, tolerance);
    } else {
      ChainJoined(points, a, b, tolerance, best.value);
      InJoined(Chain(points, a, best.value, tolerance), Chain(points, best.value, b, tolerance), i);
    }
  }

  method FindFarthest(points: seq<Point>, a: nat, b: nat, tolerance: real) returns (best: Option<nat>)
    requires a < b < |points|
    ensures best == Farthest(points, a, b, b, tolerance)
  {
    best := None;
    var far := Threshold(tolerance);
    for i := a + 1 to b
      invariant best == Farthest(points, a, b, i, tolerance)
      invariant far == Far(points, a, b, best, tolerance)
    {
      var d := SegmentDist2(points[i], points[a], points[b]);
      if d > far {
        far := d;
        best := Some(i);
      }
    }
  }

  ghost predicate EndsMarked(stack: seq<(nat, nat)>, keep: seq<bool>)
    requires Spans(stack, |keep|)
  {
    forall k :: 0 <= k < |stack| ==> keep[stack[k].0] && keep[stack[k].1]
  }

  /** Point `i` is marked, or a span on the stack would mark it, exactly when the recursion keeps it. */
  ghost predicate Settles(points: seq<Point>, tolerance: real, stack: seq<(nat, nat)>, marked: bool, i: nat)
    requires |points| > 2 && Spans(stack, |points|)
  {
    marked || OnStack(points, stack, tolerance, i) <==> i in Kept(points, tolerance)
  }

  /** The loop's invariant: what is marked, and what the spans on the stack would mark, is what the recursion keeps. */
  ghost predicate Covers(points: seq<Point>, tolerance: real, stack: seq<(nat, nat)>, keep: seq<bool>) {
    && |keep| == |points| > 2 && Spans(stack, |points|) && EndsMarked(stack, keep)
    && (forall i: nat :: i < |keep| ==> Settles(points, tolerance, stack, keep[i], i))
  }

  lemma StartCovers(points: seq<Point>, tolerance: real, keep: seq<bool>)
    requires |keep| == |points| > 2
    requires forall i :: 0 <= i < |keep| ==> (keep[i] <==> i == 0 || i == |keep| - 1)
    ensures Covers(points, tolerance, [(0, |points| - 1)], keep)
  {
    var last := |points| - 1;
    assert [(0, last)] == [] + [(0, last)];
    var kept := Kept(points, tolerance);
    assert kept[0] in kept && kept[|kept| - 1] in kept;
    forall i: nat | i < |keep| ensures Settles(points, tolerance, [(0, last)], keep[i], i) {
      OnStackSnoc(points, [], (0, last), tolerance, i);
    }
  }

  /** A span whose points are all near: only its ends are kept, and they are marked. */
  lemma SettleCovers(points: seq<Point>, tolerance: real, rest: seq<(nat, nat)>, a: nat, b: nat, keep: seq<bool>)
    requires Covers(points, tolerance, rest + [(a, b)], keep) && a < b < |points|
    requires Farthest(points, a, b, b, tolerance).None?
    ensures Covers(points, tolerance, rest, keep)
  {
    var stack := rest + [(a, b)];
    assert stack[|rest|] == (a, b);
    forall k | 0 <= k < |rest| ensures rest[k] == stack[k] {}
    forall i: nat | i < |keep| ensures Settles(points, tolerance, rest, keep[i], i) {
      assert Settles(points, tolerance, stack, keep[i], i);
      OnStackSnoc(points, rest, (a, b), tolerance, i);
      ChainSplit(points, a, b, tolerance, i);
    }
  }

  lemma OnStackSplit(points: seq<Point>, tolerance: real, rest: seq<(nat, nat)>, a: nat, m: nat, b: nat, i: nat)
    requires Spans(rest, |points|) && a < b < |points| && Farthest(points, a, b, b, tolerance) == Some(m)
    ensures Spans(rest + [(a, b)], |points|) && Spans(rest + [(a, m), (m, b)], |points|)
    ensures OnStack(points, rest + [(a, b)], tolerance, i) <==> OnStack(points, rest + [(a, m), (m, b)], tolerance, i)
    ensures i == m ==> OnStack(points, rest + [(a, b)], tolerance, i)
  {
    OnStackSnoc(points, rest, (a, b), tolerance, i);
    ChainSplit(points, a, b, tolerance, i);
    OnStackSnoc(points, rest, (a, m), tolerance, i);
    OnStackSnoc(points, rest + [(a, m)], (m, b), tolerance, i);
    assert rest + [(a, m), (m, b)] == rest + [(a, m)] + [(m, b)];
    assert Chain(points, m, b, tolerance)[0] == m;
  }

  lemma EndsStayMarked(rest: seq<(nat, nat)>, a: nat, m: nat, b: nat, keep: seq<bool>)
    requires Spans(rest + [(a, b)], |keep|) && EndsMarked(rest + [(a, b)], keep) && a < m < b < |keep|
    ensures Spans(rest + [(a, m), (m, b)], |keep|) && EndsMarked(rest + [(a, m), (m, b)], keep[m := true])
  {
    var stack := rest + [(a, b)];
    assert stack[|rest|] == (a, b);
    forall k | 0 <= k < |rest| ensures rest[k] == stack[k] {}
  }

  /** A span split at its farthest point, which is marked: the two halves keep what the whole keeps. */
  lemma SplitCovers(points: seq<Point>, tolerance: real, rest: seq<(nat, nat)>, a: nat, m: nat, b: nat, keep: seq<bool>)
    requires Covers(points, tolerance, rest + [(a, b)], keep) && a < b < |points|
    requires Farthest(points, a, b, b, tolerance) == Some(m)
    ensures Covers(points, tolerance, rest + [(a, m), (m, b)], keep[m := true])
  {
    var stack, next := rest + [(a, b)], rest + [(a, m), (m, b)];
    EndsStayMarked(rest, a, m, b, keep);
    assert Spans(rest, |points|) by { forall k | 0 <= k < |rest| ensures rest[k] == stack[k] {} }
    var marked := keep[m := true];
    forall i: nat | i < |keep| ensures Settles(points, tolerance, next, marked[i], i) {
      assert Settles(points, tolerance, stack, keep[i], i);
      OnStackSplit(points, tolerance, rest, a, m, b, i);
    }
  }

  /** One turn of the loop: `best` is the farthest point of the span taken off the stack. */
  lemma TurnCovers(points: seq<Point>, tolerance: real, stack: seq<(nat, nat)>, keep: seq<bool>)
    requires Covers(points, tolerance, stack, keep) && stack != []
    ensures
      var rest := stack[..|stack| - 1];
      var (a, b) := stack[|stack| - 1];
      && a < b < |points|
      && var best := Farthest(points, a, b, b, tolerance);
         if best.None? then Covers(points, tolerance, rest, keep) && 0 <= Work(rest) < Work(stack)
         else
           var next := rest + [(a, best.value), (best.value, b)];
           Covers(points, tolerance, next, keep[best.value := true]) && 0 <= Work(next) < Work(stack)
  {
    var rest := stack[..|stack| - 1];
    var (a, b) := stack[|stack| - 1];
    assert stack == rest + [(a, b)];
    var best := Farthest(points, a, b, b, tolerance);
    if best.None? {
      SettleCovers(points, tolerance, rest, a, b, keep);
      WorkNonNegative(rest, |points|);
    } else {
      SplitCovers(points, tolerance, rest, a, best.value, b, keep);
      WorkSplit(rest, a, best.value, b);
      WorkNonNegative(rest + [(a, best.value), (best.value, b)], |points|);
    }
  }

  method Simplify(points: seq<Point>, tolerance: real) returns (out: seq<Point>)
    ensures out == if |points| <= 2 then points else Pick(points, Kept(points, tolerance))
  {
    if |points| <= 2 { return points; }
    var n := |points|;
    var keep := new bool[n](_ => false);
    keep[0], keep[n - 1] := true, true;
    assert forall i :: 0 <= i < n ==> (keep[..][i] <==> i == 0 || i == n - 1);
    StartCovers(points, tolerance, keep[..]);
    MarkKept(points, tolerance, keep);
    out := Filter(points, keep);
    SelectsKept(points, tolerance, keep[..], out);
  }

  /** The loop over the stack, from the span of the whole stroke. */
  method MarkKept(points: seq<Point>, tolerance: real, keep: array<bool>)
    requires |points| > 2 && Covers(points, tolerance, [(0, |points| - 1)], keep[..])
    modifies keep
    ensures Covers(points, tolerance, [], keep[..])
  {
    var stack: seq<(nat, nat)> := [(0, |points| - 1)];
    while stack != []
      invariant Covers(points, tolerance, stack, keep[..])
      decreases Work(stack)
    {
      TurnCovers(points, tolerance, stack, keep[..]);
      var (a, b) := stack[|stack| - 1];
      var best := FindFarthest(points, a, b, tolerance);
      stack := stack[..|stack| - 1];
      if best.Some? {
        ghost var marked := keep[..];
        keep[best.value] := true;
        assert keep[..] == marked[best.value := true];
        stack := stack + [(a, best.value), (best.value, b)];
      }
    }
  }

  lemma SelectsKept(points: seq<Point>, tolerance: real, keep: seq<bool>, out: seq<Point>)
    requires Covers(points, tolerance, [], keep)
    requires exists picked: seq<nat> :: Selects(points, keep, picked, out)
    ensures out == Pick(points, Kept(points, tolerance))
  {
    var picked :| Selects(points, keep, picked, out);
    var kept := Kept(points, tolerance);
    forall i: nat ensures i in picked <==> i in kept {
      if i < |keep| { assert Settles(points, tolerance, [], keep[i], i); }
    }
    IncreasingUnique(picked, kept);
  }

  ghost predicate Selects(points: seq<Point>, keep: seq<bool>, picked: seq<nat>, out: seq<Point>)
    requires |keep| == |points|
  {
    Increasing(picked) && (forall i: nat :: i in picked <==> i < |keep| && keep[i]) && FromIndices(points, picked, out)
  }

  ghost predicate FromIndices(points: seq<Point>, picked: seq<nat>, out: seq<Point>) {
    |out| == |picked| && forall k :: 0 <= k < |out| ==> picked[k] < |points| && out[k] == points[picked[k]]
  }

  /** `points.filter`, by mark. */
  method Filter(points: seq<Point>, keep: array<bool>) returns (out: seq<Point>)
    requires keep.Length == |points|
    ensures exists picked: seq<nat> :: Selects(points, keep[..], picked, out)
  {
    out := [];
    ghost var picked: seq<nat> := [];
    for i := 0 to |points|
      invariant Increasing(picked) && FromIndices(points, picked, out)
      invariant forall k :: 0 <= k < |picked| ==> picked[k] < i
      invariant forall j: nat :: j in picked <==> j < i && keep[j]
    {
      if keep[i] {
        out := out + [points[i]];
        picked := picked + [i];
      }
    }
    assert Selects(points, keep[..], picked, out);
  }

  lemma {:induction false} IncreasingUnique(s: seq<nat>, t: seq<nat>)
    requires Increasing(s) && Increasing(t)
    requires forall i: nat :: i in s <==> i in t
    ensures s == t
  {
    assert |s| > 0 ==> s[0] in s;
    assert |t| > 0 ==> t[0] in t;
    if s != [] && t != [] {
      forall i: nat ensures i in s[1..] <==> i in t[1..] {
        if i in s[1..] { assert i in t; }
        if i in t[1..] { assert i in s; }
      }
      IncreasingUnique(s[1..], t[1..]);
      assert s == [s[0]] + s[1..] && t == [t[0]] + t[1..];
    }
  }

  // ---- what is kept ----

  /** Between two neighbours in `kept`, every dropped point is within tolerance of the segment that joins them. */
  ghost predicate Close(points: seq<Point>, kept: seq<nat>, tolerance: real)
    requires forall k :: 0 <= k < |kept| ==> kept[k] < |points|
  {
    forall k, i :: 0 <= k < |kept| - 1 && kept[k] < i < kept[k + 1] ==>
      WithinTolerance(points[i], points[kept[k]], points[kept[k + 1]], tolerance)
  }

  lemma {:induction false} ChainClose(points: seq<Point>, a: nat, b: nat, tolerance: real)
    requires a < b < |points|
    ensures forall k :: 0 <= k < |Chain(points, a, b, tolerance)| ==> Chain(points, a, b, tolerance)[k] < |points|
    ensures Close(points, Chain(points, a, b, tolerance), tolerance)
    decreases b - a
  {
    ChainBounds(points, a, b, tolerance);
    var best := Farthest(points, a, b, b, tolerance);
    if best.Some? {
      ChainClose(points, a, best.value, tolerance);
      ChainClose(points, best.value, b, tolerance);
      var left, right := Chain(points, a, best.value, tolerance), Chain(points, best.value, b, tolerance);
      JoinClose(points, left, right, tolerance);
      assert Chain(points, a, b, tolerance) == left + right[1..];
    } else {
      SpanClose(points, a, b, tolerance);
    }
  }

  lemma SpanClose(points: seq<Point>, a: nat, b: nat, tolerance: real)
    requires a < b < |points| && Farthest(points, a, b, b, tolerance).None?
    ensures Close(points, [a, b], tolerance)
  {
    FarthestIs(points, a, b, b, tolerance);
  }

  lemma JoinClose(points: seq<Point>, left: seq<nat>, right: seq<nat>, tolerance: real)
    requires forall k :: 0 <= k < |left| ==> left[k] < |points|
    requires forall k :: 0 <= k < |right| ==> right[k] < |points|
    requires left != [] && right != [] && left[|left| - 1] == right[0]
    requires Close(points, left, tolerance) && Close(points, right, tolerance)
    ensures
      var kept := left + right[1..];
      (forall k :: 0 <= k < |kept| ==> kept[k] < |points|) && Close(points, kept, tolerance)
  {
    var kept := left + right[1..];
    forall k, i | 0 <= k < |kept| - 1 && kept[k] < i < kept[k + 1]
      ensures WithinTolerance(points[i], points[kept[k]], points[kept[k + 1]], tolerance)
    {
      if k < |left| - 1 {
        assert kept[k] == left[k] && kept[k + 1] == left[k + 1];
      } else {
        var j := k - |left| + 1;
        assert kept[k] == right[j] && kept[k + 1] == right[j + 1];
      }
    }
  }

  /** `i` is the farthest point, too far, from the line between two of the kept ones around it. */
  ghost predicate Needed(points: seq<Point>, kept: seq<nat>, tolerance: real, i: nat) {
    exists l: nat, r: nat :: l in kept && r in kept && l < i < r < |points|
      && Farthest(points, l, r, r, tolerance) == Some(i)
  }

  /** And nothing is kept without need. */
  lemma {:induction false} ChainNeeded(points: seq<Point>, a: nat, b: nat, tolerance: real, i: nat)
    requires a < b < |points| && i in Chain(points, a, b, tolerance) && i != a && i != b
    ensures Needed(points, Chain(points, a, b, tolerance), tolerance, i)
    decreases b - a
  {
    var kept := Chain(points, a, b, tolerance);
    var best := Farthest(points, a, b, b, tolerance);
    ChainSplit(points, a, b, tolerance, i);
    var m := best.value;
    if i == m {
      assert kept[0] in kept && kept[|kept| - 1] in kept;
    } else if i in Chain(points, a, m, tolerance) {
      ChainNeeded(points, a, m, tolerance, i);
      NeededInMore(points, Chain(points, a, m, tolerance), kept, tolerance, i);
    } else {
      ChainNeeded(points, m, b, tolerance, i);
      forall j | j in Chain(points, m, b, tolerance) ensures j in kept { ChainSplit(points, a, b, tolerance, j); }
      NeededInMore(points, Chain(points, m, b, tolerance), kept, tolerance, i);
    }
  }

  lemma NeededInMore(points: seq<Point>, some: seq<nat>, kept: seq<nat>, tolerance: real, i: nat)
    requires Needed(points, some, tolerance, i) && forall j :: j in some ==> j in kept
    ensures Needed(points, kept, tolerance, i)
  {
    var l: nat, r: nat :| l in some && r in some && l < i < r < |points|
      && Farthest(points, l, r, r, tolerance) == Some(i);
    assert l in kept && r in kept;
  }

  /** The result in full: an ordered selection from end to end, close to what was dropped and no larger than needed. */
  lemma SimplifyKeepsShape(points: seq<Point>, tolerance: real)
    requires |points| > 2
    ensures
      var kept := Kept(points, tolerance);
      && Increasing(kept) && |kept| >= 2 && kept[0] == 0 && kept[|kept| - 1] == |points| - 1
      && Close(points, kept, tolerance)
      && forall i: nat :: i in kept && i != 0 && i != |points| - 1 ==> Needed(points, kept, tolerance, i)
  {
    var kept := Kept(points, tolerance);
    ChainClose(points, 0, |points| - 1, tolerance);
    forall i: nat | i in kept && i != 0 && i != |points| - 1 ensures Needed(points, kept, tolerance, i) {
      ChainNeeded(points, 0, |points| - 1, tolerance, i);
    }
  }
}
