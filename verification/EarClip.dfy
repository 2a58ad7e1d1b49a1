/** Filling a simple polygon by clipping ears, after `fill_simple_polygon` in `canvas/canvas.cpp`,
    over the reals. */
module EarClip {
  datatype Point = Point(x: real, y: real)

  datatype Triangle = Triangle(a: Point, b: Point, c: Point)

  /** Twice the signed area of the triangle `u`, `v`, `w`. */
  function Cross(u: Point, v: Point, w: Point): real {
    (v.x - u.x) * (w.y - u.y) - (v.y - u.y) * (w.x - u.x)
  }

  /** `point_in_tri`: not strictly on different sides of two of its edges. */
  predicate InTriangle(p: Point, a: Point, b: Point, c: Point) {
    var d1, d2, d3 := Cross(a, b, p), Cross(b, c, p), Cross(c, a, p);
    !((d1 < 0.0 || d2 < 0.0 || d3 < 0.0) && (d1 > 0.0 || d2 > 0.0 || d3 > 0.0))
  }

  function Span(u: Point, v: Point): real {
    u.x * v.y - v.x * u.y
  }

  // ---------------------------------------------------------------- the triangle

  /** `p` is the mean of the three corners with these weights. */
  ghost predicate Mean(p: Point, a: Point, b: Point, c: Point, u: real, v: real, w: real) {
    && u >= 0.0 && v >= 0.0 && w >= 0.0 && u + v + w == 1.0
    && p.x == u * a.x + v * b.x + w * c.x && p.y == u * a.y + v * b.y + w * c.y
  }

  /** The three sides' triangles with `p` fill the triangle. */
  lemma CrossSum(p: Point, a: Point, b: Point, c: Point)
    ensures Cross(a, b, p) + Cross(b, c, p) + Cross(c, a, p) == Cross(a, b, c)
  {
  }

  lemma Weighed(p: Point, a: Point, b: Point, c: Point)
    ensures var k, d2, d3, d1 := Cross(a, b, c), Cross(b, c, p), Cross(c, a, p), Cross(a, b, p);
            k * p.x == d2 * a.x + d3 * b.x + d1 * c.x && k * p.y == d2 * a.y + d3 * b.y + d1 * c.y
  {
  }

  lemma MeanCross(p: Point, a: Point, b: Point, c: Point, u: real, v: real, w: real)
    requires Mean(p, a, b, c, u, v, w)
    ensures Cross(a, b, p) == w * Cross(a, b, c)
  {
  }

  lemma Weights(p: Point, a: Point, b: Point, c: Point)
    requires Cross(a, b, c) > 0.0
    ensures var k := Cross(a, b, c); var u, v, w := Cross(b, c, p) / k, Cross(c, a, p) / k, Cross(a, b, p) / k;
            u + v + w == 1.0 && p.x == u * a.x + v * b.x + w * c.x && p.y == u * a.y + v * b.y + w * c.y
  {
    var k, d2, d3, d1 := Cross(a, b, c), Cross(b, c, p), Cross(c, a, p), Cross(a, b, p);
    CrossSum(p, a, b, c);
    Weighed(p, a, b, c);
    hide Cross;
    Shared(k, d2, d3, d1, p.x, a.x, b.x, c.x);
    Shared(k, d2, d3, d1, p.y, a.y, b.y, c.y);
    Shared(k, d2, d3, d1, 1.0, 1.0, 1.0, 1.0);
  }

  lemma Shared(k: real, d2: real, d3: real, d1: real, p: real, a: real, b: real, c: real)
    requires k > 0.0 && k * p == d2 * a + d3 * b + d1 * c
    ensures p == d2 / k * a + d3 / k * b + d1 / k * c
  {
    Share(k, d2, a);
    Share(k, d3, b);
    Share(k, d1, c);
    var s := d2 / k * a + d3 / k * b + d1 / k * c;
    assert k * s == k * (d2 / k * a) + k * (d3 / k * b) + k * (d1 / k * c);
    assert k * (p - s) == 0.0;
  }

  lemma Share(k: real, d: real, a: real)
    requires k > 0.0
    ensures k * (d / k * a) == d * a
  {
    var q := d / k;
    assert q * k == d;
    assert k * (q * a) == (q * k) * a;
  }

  /** In a triangle that turns left, the points that pass the test are exactly the weighted means of
      its corners: edges and corners are in, nothing outside is. */
  lemma TriangleIs(p: Point, a: Point, b: Point, c: Point)
    requires Cross(a, b, c) > 0.0
    ensures InTriangle(p, a, b, c) <==> exists u, v, w :: Mean(p, a, b, c, u, v, w)
  {
    CrossSum(p, a, b, c);
    var k := Cross(a, b, c);
    if InTriangle(p, a, b, c) {
      Weights(p, a, b, c);
      hide Cross;
      var u, v, w := Cross(b, c, p) / k, Cross(c, a, p) / k, Cross(a, b, p) / k;
      assert Cross(a, b, p) >= 0.0 && Cross(b, c, p) >= 0.0 && Cross(c, a, p) >= 0.0;
      assert Mean(p, a, b, c, u, v, w);
    }
    if u, v, w :| Mean(p, a, b, c, u, v, w) {
      MeanCross(p, a, b, c, u, v, w);
      MeanCross(p, b, c, a, v, w, u);
      MeanCross(p, c, a, b, w, u, v);
      CrossTurns(a, b, c);
      hide Cross;
      assert w * k >= 0.0 && u * k >= 0.0 && v * k >= 0.0;
    }
  }

  lemma CrossTurns(a: Point, b: Point, c: Point)
    ensures Cross(a, b, c) == Cross(b, c, a) == Cross(c, a, b)
  {
  }

  // ---------------------------------------------------------------- areas

  /** The spans of the edges along an open path. */
  function Along(ps: seq<Point>): real {
    if |ps| < 2 then 0.0 else Along(ps[..|ps| - 1]) + Span(ps[|ps| - 2], ps[|ps| - 1])
  }

  /** Twice the signed area of a closed polygon. */
  function Area(ps: seq<Point>): real {
    if ps == [] then 0.0 else Along(ps) + Span(ps[|ps| - 1], ps[0])
  }

  /** `poly_signed_area2`. */
  method SignedArea(ps: seq<Point>) returns (a: real)
    ensures a == Area(ps)
  {
    hide Span;
    a := 0.0;
    var n := |ps|;
    for i := 0 to n
      invariant a == if i == n then Area(ps) else Along(ps[..i + 1])
    {
      var j := (i + 1) % n;
      Wraps(i, n);
      a := a + Span(ps[i], ps[j]);
      if i + 1 < n {
        assert ps[..i + 2][..i + 1] == ps[..i + 1];
      } else {
        assert ps[..i + 1] == ps;
      }
    }
  }

  /** The point before and after a corner, round the loop. */
  function Before(i: int, n: int): int {
    if i == 0 then n - 1 else i - 1
  }

  function After(i: int, n: int): int {
    if i == n - 1 then 0 else i + 1
  }

  lemma Wraps(i: nat, n: nat)
    requires i < n
    ensures (i + 1) % n == After(i, n) && (i + n - 1) % n == Before(i, n)
  {
    if i > 0 {
      assert i + n - 1 == (i - 1) + n;
    }
  }

  function Without<T>(s: seq<T>, i: int): seq<T>
    requires 0 <= i < |s|
  {
    s[..i] + s[i + 1..]
  }

  lemma SpanTriangle(a: Point, b: Point, c: Point)
    ensures Span(a, b) + Span(b, c) + Span(c, a) == Cross(a, b, c)
    ensures Span(a, c) == -Span(c, a)
  {
  }

  lemma {:induction false} AlongJoin(ps: seq<Point>, qs: seq<Point>)
    requires ps != [] && qs != []
    ensures Along(ps + qs) == Along(ps) + Span(ps[|ps| - 1], qs[0]) + Along(qs)
    decreases |qs|
  {
    hide Span;
    var all := ps + qs;
    if |qs| == 1 {
      assert all[..|all| - 1] == ps;
    } else {
      var init := qs[..|qs| - 1];
      assert all[..|all| - 1] == ps + init;
      AlongJoin(ps, init);
    }
  }

  /** Cutting a corner off takes the triangle's area from the polygon's. */
  lemma CutCorner(ps: seq<Point>, i: int)
    requires 0 <= i < |ps| && |ps| >= 3
    ensures Area(ps) == Area(Without(ps, i)) + Cross(ps[Before(i, |ps|)], ps[i], ps[After(i, |ps|)])
  {
    var n := |ps|;
    var rest := Without(ps, i);
    var a, b, c := ps[Before(i, n)], ps[i], ps[After(i, n)];
    SpanTriangle(a, b, c);
    hide Span, Cross;
    if i == 0 {
      assert ps == [b] + rest;
      AlongJoin([b], rest);
    } else if i == n - 1 {
      assert ps == rest + [b];
      AlongJoin(rest, [b]);
    } else {
      var l, r := ps[..i], ps[i + 1..];
      assert ps == l + ([b] + r);
      AlongJoin(l, [b] + r);
      AlongJoin([b], r);
      AlongJoin(l, r);
    }
  }

  function Reversed(ps: seq<Point>): (r: seq<Point>)
    ensures |r| == |ps|
  {
    if ps == [] then [] else [ps[|ps| - 1]] + Reversed(ps[..|ps| - 1])
  }

  lemma {:induction false} AlongReversed(ps: seq<Point>)
    requires ps != []
    ensures Along(Reversed(ps)) == -Along(ps)
    ensures Reversed(ps)[0] == ps[|ps| - 1] && Reversed(ps)[|ps| - 1] == ps[0]
  {
    var init := ps[..|ps| - 1];
    if init != [] {
      AlongReversed(init);
      AlongJoin([ps[|ps| - 1]], Reversed(init));
    }
  }

  /** Turning a polygon round negates its area. */
  lemma AreaReversed(ps: seq<Point>)
    ensures Area(Reversed(ps)) == -Area(ps)
  {
    if ps != [] {
      AlongReversed(ps);
    }
  }

  // ---------------------------------------------------------------- ears

  ghost predicate Inside(idx: seq<nat>, n: nat) {
    forall k :: 0 <= k < |idx| ==> idx[k] < n
  }

  /** The points of the loop that is left. */
  function Points(pts: seq<Point>, idx: seq<nat>): (ps: seq<Point>)
    requires forall k :: 0 <= k < |idx| ==> idx[k] < |pts|
    ensures |ps| == |idx|
  {
    seq(|idx|, k requires 0 <= k < |idx| => pts[idx[k]])
  }

  /** The triangle at a corner of the loop. */
  function Corner(ps: seq<Point>, i: int): Triangle
    requires 0 <= i < |ps|
  {
    Triangle(ps[Before(i, |ps|)], ps[i], ps[After(i, |ps|)])
  }

  predicate Contains(t: Triangle, p: Point) {
    InTriangle(p, t.a, t.b, t.c)
  }

  /** A corner that turns left and has no other point of the loop in its triangle. */
  predicate Ear(ps: seq<Point>, i: int)
    requires 0 <= i < |ps|
  {
    var t := Corner(ps, i);
    && Cross(t.a, t.b, t.c) > 0.0
    && forall j :: 0 <= j < |ps| && j != Before(i, |ps|) && j != i && j != After(i, |ps|) ==> !Contains(t, ps[j])
  }

  /** One round: the first ear of the loop is cut off. */
  ghost predicate Clips(pts: seq<Point>, idx: seq<nat>, i: int, t: Triangle, idx': seq<nat>) {
    && Inside(idx, |pts|) && 0 <= i < |idx|
    && Ear(Points(pts, idx), i) && (forall j :: 0 <= j < i ==> !Ear(Points(pts, idx), j))
    && t == Corner(Points(pts, idx), i) && idx' == Without(idx, i)
  }

  ghost predicate Round(pts: seq<Point>, idx: seq<nat>, t: Triangle, idx': seq<nat>) {
    |idx| > 3 && exists i :: Clips(pts, idx, i, t, idx')
  }

  function Upto(n: nat): (r: seq<nat>)
    ensures |r| == n && forall k :: 0 <= k < n ==> r[k] == k
  {
    seq(n, k => k)
  }

  /** The loops of a run, from all points on, and the triangle each round emits. */
  ghost predicate Run(pts: seq<Point>, loops: seq<seq<nat>>, ears: seq<Triangle>) {
    && |loops| == |ears| + 1 && loops[0] == Upto(|pts|)
    && forall k {:trigger ears[k]} :: 0 <= k < |ears| ==> Round(pts, loops[k], ears[k], loops[k + 1])
  }

  // ---------------------------------------------------------------- what a run keeps

  ghost predicate Rising(idx: seq<nat>, n: nat) {
    Inside(idx, n) && forall j, k :: 0 <= j < k < |idx| ==> idx[j] < idx[k]
  }

  lemma ClipKeeps(pts: seq<Point>, idx: seq<nat>, t: Triangle, idx': seq<nat>)
    requires Rising(idx, |pts|) && Round(pts, idx, t, idx')
    ensures Rising(idx', |pts|) && |idx'| == |idx| - 1
    ensures Area(Points(pts, idx)) == Area(Points(pts, idx')) + Cross(t.a, t.b, t.c)
    ensures Cross(t.a, t.b, t.c) > 0.0
  {
    var i :| Clips(pts, idx, i, t, idx');
    EarTurns(Points(pts, idx), i);
    hide Cross, Ear, Area, Corner;
    CornerCut(pts, idx, i);
  }

  lemma EarTurns(ps: seq<Point>, i: int)
    requires 0 <= i < |ps| && Ear(ps, i)
    ensures var t := Corner(ps, i); Cross(t.a, t.b, t.c) > 0.0
  {
  }

  lemma CornerCut(pts: seq<Point>, idx: seq<nat>, i: int)
    requires Inside(idx, |pts|) && 0 <= i < |idx| && |idx| > 3
    ensures Inside(Without(idx, i), |pts|)
    ensures var t := Corner(Points(pts, idx), i);
            Area(Points(pts, idx)) == Area(Points(pts, Without(idx, i))) + Cross(t.a, t.b, t.c)
  {
    hide Cross, Area;
    var ps := Points(pts, idx);
    assert Points(pts, Without(idx, i)) == Without(ps, i);
    CutCorner(ps, i);
  }

  function Total(ts: seq<Triangle>): real {
    if ts == [] then 0.0
    else Total(ts[..|ts| - 1]) + Cross(ts[|ts| - 1].a, ts[|ts| - 1].b, ts[|ts| - 1].c)
  }

  /** After any number of rounds the indices left rise strictly, one point is gone per round, and
      the emitted areas and the area of what is left add up to the polygon's. */
  lemma {:induction false} RunKeeps(pts: seq<Point>, loops: seq<seq<nat>>, ears: seq<Triangle>)
    requires Run(pts, loops, ears)
    ensures var rest := loops[|ears|];
            && Rising(rest, |pts|) && |rest| + |ears| == |pts|
            && Total(ears) + Area(Points(pts, rest)) == Area(pts)
    decreases |ears|
  {
    var n := |ears|;
    if n == 0 {
      assert Points(pts, Upto(|pts|)) == pts;
    } else {
      var before := ears[..n - 1];
      assert Run(pts, loops[..n], before) by {
        forall k | 0 <= k < n - 1 ensures Round(pts, loops[..n][k], before[k], loops[..n][k + 1]) {
          assert Round(pts, loops[k], ears[k], loops[k + 1]);
        }
      }
      RunKeeps(pts, loops[..n], before);
      assert Round(pts, loops[n - 1], ears[n - 1], loops[n]);
      ClipKeeps(pts, loops[n - 1], ears[n - 1], loops[n]);
    }
  }

  lemma ThreeLeft(ps: seq<Point>)
    requires |ps| == 3
    ensures Area(ps) == Cross(ps[0], ps[1], ps[2])
  {
    SpanTriangle(ps[0], ps[1], ps[2]);
    hide Span, Cross;
    assert ps[..2][..1] == ps[..1];
    assert Along(ps[..1]) == 0.0;
    assert Along(ps[..2]) == Span(ps[0], ps[1]);
  }

  // ---------------------------------------------------------------- fill_simple_polygon

  /** The inner loop: whether the corner at `i` is an ear. */
  method TestEar(pts: seq<Point>, idx: seq<nat>, i: nat) returns (ear: bool)
    requires Rising(idx, |pts|) && i < |idx| && |idx| > 3
    ensures ear == Ear(Points(pts, idx), i)
  {
    hide Cross;
    var n := |idx|;
    Wraps(i, n);
    var ia, ib, ic := idx[(i + n - 1) % n], idx[i], idx[(i + 1) % n];
    var a, b, c := pts[ia], pts[ib], pts[ic];
    ghost var ps := Points(pts, idx);
    if Cross(a, b, c) <= 0.0 { return false; }
    for j := 0 to n
      invariant forall k :: 0 <= k < j && k != Before(i, n) && k != i && k != After(i, n) ==> !Contains(Corner(ps, i), ps[k])
    {
      var ij := idx[j];
      if ij != ia && ij != ib && ij != ic {
        if InTriangle(pts[ij], a, b, c) {
          assert Contains(Corner(ps, i), ps[j]);
          return false;
        }
      }
    }
    return true;
  }

  const GUARD := 20000

  /** What the filled triangles are: the ears of a run over the polygon turned counter-clockwise,
      and the last three points if the run came down to them.  The run ends there, or where no
      corner is an ear, or at the guard. */
  ghost predicate Filled(pts: seq<Point>, loops: seq<seq<nat>>, ears: seq<Triangle>, tris: seq<Triangle>) {
    && Run(pts, loops, ears) && Rising(loops[|ears|], |pts|)
    && var rest := Points(pts, loops[|ears|]);
    && (|rest| <= 3 || |ears| == GUARD || forall i :: 0 <= i < |rest| ==> !Ear(rest, i))
    && tris == if |rest| == 3 then ears + [Triangle(rest[0], rest[1], rest[2])] else ears
  }

  function Turned(pts: seq<Point>): seq<Point> {
    if Area(pts) < 0.0 then Reversed(pts) else pts
  }

  /** `fill_simple_polygon`. */
  method FillSimplePolygon(points: seq<Point>) returns (tris: seq<Triangle>, ghost loops: seq<seq<nat>>, ghost ears: seq<Triangle>)
    ensures |points| < 3 ==> tris == []
    ensures |points| >= 3 ==> Filled(Turned(points), loops, ears, tris)
  {
    tris, loops, ears := [], [], [];
    if |points| < 3 { return; }
    var pts := points;
    var area := SignedArea(pts);
    if area < 0.0 { pts := Reversed(pts); }
    assert pts == Turned(points);
    var idx: seq<nat> := Upto(|pts|);
    var guard: nat := 0;
    loops := [idx];
    var stuck := false;
    hide Ear, Cross, Area;
    while |idx| > 3 && guard < GUARD && !stuck
      invariant Run(pts, loops, tris) && loops[|tris|] == idx && Rising(idx, |pts|)
      invariant guard == |tris| <= GUARD
      invariant stuck ==> forall i :: 0 <= i < |idx| ==> !Ear(Points(pts, idx), i)
      decreases |idx|, !stuck
    {
      var i: nat, ear := 0, false;
      while i < |idx| && !ear
        invariant 0 <= i <= |idx| && (ear ==> i < |idx| && Ear(Points(pts, idx), i))
        invariant forall j :: 0 <= j < i ==> !Ear(Points(pts, idx), j)
        decreases |idx| - i, !ear
      {
        ear := TestEar(pts, idx, i);
        if !ear { i := i + 1; }
      }
      if ear {
        guard := guard + 1;
        var t, left := Corner(Points(pts, idx), i), Without(idx, i);
        assert Clips(pts, idx, i, t, left);
        ClipKeeps(pts, idx, t, left);
        RunGrows(pts, loops, tris, t, left);
        tris, loops, idx := tris + [t], loops + [left], left;
      } else {
        stuck := true;
      }
    }
    ears := tris;
    if |idx| == 3 {
      tris := tris + [Triangle(pts[idx[0]], pts[idx[1]], pts[idx[2]])];
    }
  }

  lemma RunGrows(pts: seq<Point>, loops: seq<seq<nat>>, ears: seq<Triangle>, t: Triangle, left: seq<nat>)
    requires Run(pts, loops, ears) && Round(pts, loops[|ears|], t, left)
    ensures Run(pts, loops + [left], ears + [t])
  {
    hide Round;
    var loops', ears' := loops + [left], ears + [t];
    forall k | 0 <= k < |ears'| ensures Round(pts, loops'[k], ears'[k], loops'[k + 1]) {
      if k < |ears| {
        assert Round(pts, loops[k], ears[k], loops[k + 1]);
      }
    }
  }

  /** A fill that comes down to three points emits two triangles fewer than the polygon has points,
      and their areas add up to the polygon's, whichever way round it was given. */
  lemma FilledWhole(points: seq<Point>, loops: seq<seq<nat>>, ears: seq<Triangle>, tris: seq<Triangle>)
    requires |points| >= 3 && Filled(Turned(points), loops, ears, tris) && |loops[|ears|]| == 3
    ensures |tris| == |points| - 2
    ensures Total(tris) == if Area(points) < 0.0 then -Area(points) else Area(points)
  {
    hide Cross, Area, Ear;
    var pts := Turned(points);
    AreaReversed(points);
    RunKeeps(pts, loops, ears);
    ThreeLeft(Points(pts, loops[|ears|]));
    assert tris[..|tris| - 1] == ears;
  }

  /** A fill that stops earlier has emitted the area of the ears it cut and nothing else. */
  lemma FilledPart(points: seq<Point>, loops: seq<seq<nat>>, ears: seq<Triangle>, tris: seq<Triangle>)
    requires |points| >= 3 && Filled(Turned(points), loops, ears, tris) && |loops[|ears|]| > 3
    ensures Total(tris) == Area(Turned(points)) - Area(Points(Turned(points), loops[|ears|]))
    ensures |tris| == |points| - |loops[|ears|]|
  {
    RunKeeps(Turned(points), loops, ears);
  }
}
