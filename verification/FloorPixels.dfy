/** From the building's metres to a floor's pixels and back, after `model/building.cpp`: the scale
    measured on the main floor, and the fit between floors on top. */
module FloorPixels {
  import opened FloorFit

  /** `distance` is the value of the parameter of that name as a number, 0 if there is none. */
  datatype Measurement = Measurement(start: int, end: int, distance: real)

  datatype Level = Level(vertices: seq<Point>, measurements: seq<Measurement>, fiducials: seq<Fiducial>, snapshot: real)

  /** What one measurement says of the metres per pixel, if it says anything. */
  function Measured(m: Math, vertices: seq<Point>, e: Measurement): (ratios: seq<real>)
    ensures |ratios| <= 1
  {
    if e.start < 0 || e.end < 0 || e.start >= |vertices| || e.end >= |vertices| || e.distance <= 0.0 then []
    else
      var d := m.sqrt(Square(Less(vertices[e.start], vertices[e.end])));
      if d <= 0.0 then [] else [e.distance / d]
  }

  function Ratios(m: Math, vertices: seq<Point>, es: seq<Measurement>): seq<real> {
    if es == [] then [] else Ratios(m, vertices, es[..|es| - 1]) + Measured(m, vertices, es[|es| - 1])
  }

  function Sum(rs: seq<real>): real {
    if rs == [] then 0.0 else Sum(rs[..|rs| - 1]) + rs[|rs| - 1]
  }

  /** The mean over the usable measurements, 0 if there are none. */
  function DirectMpp(m: Math, l: Level): real {
    var rs := Ratios(m, l.vertices, l.measurements);
    if rs == [] then 0.0 else Sum(rs) / |rs| as real
  }

  /** `direct_mpp`. */
  method MeasureMpp(m: Math, l: Level) returns (mpp: real)
    ensures mpp == DirectMpp(m, l)
  {
    hide Measured, Lawful;
    var sum, count := 0.0, 0;
    ghost var rs: seq<real> := [];
    for i := 0 to |l.measurements|
      invariant rs == Ratios(m, l.vertices, l.measurements[..i])
      invariant sum == Sum(rs) && count == |rs|
    {
      assert l.measurements[..i + 1][..i] == l.measurements[..i];
      var one := Measured(m, l.vertices, l.measurements[i]);
      if one != [] {
        assert one == [one[0]] && (rs + one)[..|rs|] == rs;
        sum, count := sum + one[0], count + 1;
      }
      assert rs + [] == rs;
      rs := rs + one;
    }
    assert l.measurements[..|l.measurements|] == l.measurements;
    if count > 0 { return sum / count as real; }
    return 0.0;
  }

  /** The first floor from `i` on with measurements of its own, -1 if there is none. */
  function MainFrom(m: Math, ls: seq<Level>, i: nat): (r: int)
    ensures -1 <= r < |ls|
    ensures r >= 0 ==> DirectMpp(m, ls[r]) > 0.0
    decreases |ls| - i
  {
    if i >= |ls| then -1 else if DirectMpp(m, ls[i]) > 0.0 then i else MainFrom(m, ls, i + 1)
  }

  /** The first of the floors' measured scales, 0 if there is none. */
  function FirstMpp(m: Math, ls: seq<Level>): real {
    var i := MainFrom(m, ls, 0);
    if i < 0 then 0.0 else DirectMpp(m, ls[i])
  }

  /** `compute_level_mpp`. */
  function LevelMpp(m: Math, ls: seq<Level>, i: int): real {
    if i < 0 || i >= |ls| then 0.0
    else if ls[i].snapshot > 0.0 then ls[i].snapshot
    else if DirectMpp(m, ls[i]) > 0.0 then DirectMpp(m, ls[i])
    else FirstMpp(m, ls)
  }

  method ComputeLevelMpp(m: Math, ls: seq<Level>, i: int) returns (mpp: real)
    ensures mpp == LevelMpp(m, ls, i)
  {
    if i < 0 || i >= |ls| { return 0.0; }
    if ls[i].snapshot > 0.0 { return ls[i].snapshot; }
    var direct := MeasureMpp(m, ls[i]);
    if direct > 0.0 { return direct; }
    var k := 0;
    while k < |ls|
      invariant 0 <= k <= |ls| && MainFrom(m, ls, k) == MainFrom(m, ls, 0)
    {
      var other := MeasureMpp(m, ls[k]);
      if other > 0.0 { return other; }
      k := k + 1;
    }
    return 0.0;
  }

  lemma {:induction false} MainFirst(m: Math, ls: seq<Level>, i: nat)
    ensures var r := MainFrom(m, ls, i); forall j :: i <= j < |ls| && (r < 0 || j < r) ==> DirectMpp(m, ls[j]) <= 0.0
    decreases |ls| - i
  {
    hide DirectMpp;
    if i < |ls| && DirectMpp(m, ls[i]) <= 0.0 { MainFirst(m, ls, i + 1); }
  }

  /** `main_level_idx`: the first floor with a scale of its own. */
  method MainLevelIndex(m: Math, ls: seq<Level>) returns (i: int)
    ensures i == MainFrom(m, ls, 0)
    ensures -1 <= i < |ls| && (i >= 0 ==> DirectMpp(m, ls[i]) > 0.0)
    ensures forall j :: 0 <= j < |ls| && (i < 0 || j < i) ==> DirectMpp(m, ls[j]) <= 0.0
  {
    MainFirst(m, ls, 0);
    var k := 0;
    while k < |ls|
      invariant 0 <= k <= |ls| && MainFrom(m, ls, k) == MainFrom(m, ls, 0)
    {
      var mpp := MeasureMpp(m, ls[k]);
      if mpp > 0.0 { return k; }
      k := k + 1;
    }
    return -1;
  }

  /** The floor the building's frame is tied to, and its scale. */
  function Anchor(m: Math, ls: seq<Level>): (r: (nat, real))
    requires ls != []
    ensures r.0 < |ls| && r.1 > 0.0
  {
    var i: nat := if MainFrom(m, ls, 0) < 0 then 0 else MainFrom(m, ls, 0);
    var direct := DirectMpp(m, ls[i]);
    var mpp := if direct > 0.0 then direct else LevelMpp(m, ls, i);
    (i, if mpp > 0.0 then mpp else 1.0)
  }

  /** The transform that lies on top for this floor, if it is not the anchor. */
  function OnTop(m: Math, ls: seq<Level>, i: int): (xfs: seq<Transform>)
    requires ls != []
    ensures |xfs| <= 1
  {
    var main := Anchor(m, ls).0;
    if i == main || i < 0 || i >= |ls| then []
    else [Fit(m, MatchPairs(ls[main].fiducials, ls[i].fiducials), 1.0)]
  }

  /** Metres, y up, to pixels of the anchor, y down. */
  function Shrunk(mpp: real, p: Point): Point
    requires mpp > 0.0
  {
    Point(p.x / mpp, -p.y / mpp)
  }

  function Grown(mpp: real, p: Point): Point {
    Point(p.x * mpp, -p.y * mpp)
  }

  lemma AnchorInverse(mpp: real, p: Point)
    requires mpp > 0.0
    ensures Grown(mpp, Shrunk(mpp, p)) == p && Shrunk(mpp, Grown(mpp, p)) == p
  {
  }

  /** `rmf_to_level_px`. */
  function ToPixels(m: Math, ls: seq<Level>, i: int, p: Point): Point {
    if ls == [] then Point(0.0, 0.0)
    else
      var mpp, xfs := Anchor(m, ls).1, OnTop(m, ls, i);
      if xfs == [] then Shrunk(mpp, p) else RefToTgt(m, xfs[0], Shrunk(mpp, p))
  }

  /** `level_px_to_rmf`. */
  function ToMetres(m: Math, ls: seq<Level>, i: int, p: Point): Point {
    if ls == [] then Point(0.0, 0.0)
    else
      var mpp, xfs := Anchor(m, ls).1, OnTop(m, ls, i);
      Grown(mpp, if xfs == [] then p else TgtToRef(m, xfs[0], p))
  }

  ghost predicate Inverse(m: Math, ls: seq<Level>, i: int) {
    forall p: Point :: ToMetres(m, ls, i, ToPixels(m, ls, i, p)) == p && ToPixels(m, ls, i, ToMetres(m, ls, i, p)) == p
  }

  /** The two mappings of a floor are mutual inverses exactly when there is a floor, and the fit
      that lies on top, if one does, has a scale the inverse accepts. */
  lemma PixelsInverse(m: Math, ls: seq<Level>, i: int)
    requires Lawful(m)
    ensures Inverse(m, ls, i) <==> ls != [] && (OnTop(m, ls, i) == [] || OnTop(m, ls, i)[0].scale >= TINY)
  {
    if ls == [] {
      assert ToMetres(m, ls, i, ToPixels(m, ls, i, Point(1.0, 0.0))) == Point(0.0, 0.0);
    } else if OnTop(m, ls, i) == [] || OnTop(m, ls, i)[0].scale >= TINY {
      forall p: Point
        ensures ToMetres(m, ls, i, ToPixels(m, ls, i, p)) == p && ToPixels(m, ls, i, ToMetres(m, ls, i, p)) == p
      {
        PointInverse(m, ls, i, p);
      }
    } else {
      var a, b := Point(0.0, 0.0), Point(1.0, 0.0);
      assert ToPixels(m, ls, i, a) == ToPixels(m, ls, i, b) == Point(0.0, 0.0);
      assert ToMetres(m, ls, i, ToPixels(m, ls, i, a)) == ToMetres(m, ls, i, ToPixels(m, ls, i, b));
    }
  }

  lemma PointInverse(m: Math, ls: seq<Level>, i: int, p: Point)
    requires Lawful(m) && ls != [] && (OnTop(m, ls, i) == [] || OnTop(m, ls, i)[0].scale >= TINY)
    ensures ToMetres(m, ls, i, ToPixels(m, ls, i, p)) == p
    ensures ToPixels(m, ls, i, ToMetres(m, ls, i, p)) == p
  {
    hide RefToTgt, TgtToRef, OnTop, Anchor, Lawful, Shrunk, Grown;
    var mpp, xfs := Anchor(m, ls).1, OnTop(m, ls, i);
    AnchorInverse(mpp, p);
    if xfs != [] {
      TransformInverse(m, xfs[0], Shrunk(mpp, p));
      TransformInverse(m, xfs[0], p);
      AnchorInverse(mpp, TgtToRef(m, xfs[0], p));
    }
  }

  // ---------------------------------------------------------------- what the scale means

  /** A measurement that says something: between two places, of a length. */
  predicate Usable(l: Level, e: Measurement) {
    0 <= e.start < |l.vertices| && 0 <= e.end < |l.vertices| && e.distance > 0.0 && l.vertices[e.start] != l.vertices[e.end]
  }

  lemma Apart(m: Math, a: Point, b: Point)
    requires Lawful(m)
    ensures var d := m.sqrt(Square(Less(a, b)));
            d >= 0.0 && d * d == Square(Less(a, b)) && (d > 0.0 <==> a != b)
  {
    SquareZero(Less(a, b));
    hide Square;
    var d := m.sqrt(Square(Less(a, b)));
    assert Less(a, b) == Point(0.0, 0.0) <==> a == b;
    SquareRoot(d, Square(Less(a, b)));
  }

  lemma SquareRoot(d: real, square: real)
    requires d >= 0.0 && d * d == square
    ensures d > 0.0 <==> square != 0.0
  {
    if d > 0.0 {
      PositiveProduct(d, d, square);
    } else {
      TimesZero(d, d);
    }
  }

  lemma RatioSquares(distance: real, d: real, k: real)
    requires d > 0.0 && k == distance / d
    ensures distance * distance == k * k * (d * d)
  {
    var kd := k * d;
    assert kd == distance;
    Regrouped(k, d, kd);
  }

  lemma Regrouped(k: real, d: real, kd: real)
    requires kd == k * d
    ensures kd * kd == k * k * (d * d)
  {
    assert kd * kd == k * (d * kd);
    assert d * kd == k * (d * d);
  }

  /** Exactly the usable measurements give a ratio: that of their length to the distance in pixels. */
  lemma MeasuredIs(m: Math, l: Level, e: Measurement)
    requires Lawful(m)
    ensures Measured(m, l.vertices, e) != [] <==> Usable(l, e)
    ensures Usable(l, e) ==>
              var mpp := Measured(m, l.vertices, e)[0];
              mpp > 0.0 && e.distance * e.distance == mpp * mpp * Square(Less(l.vertices[e.start], l.vertices[e.end]))
  {
    hide Lawful, Square, Less;
    if 0 <= e.start < |l.vertices| && 0 <= e.end < |l.vertices| && e.distance > 0.0 {
      var a, b := l.vertices[e.start], l.vertices[e.end];
      Apart(m, a, b);
      var d := m.sqrt(Square(Less(a, b)));
      if d > 0.0 {
        RatioSquares(e.distance, d, e.distance / d);
        PositiveRatio(e.distance, d);
      }
    }
  }

  lemma PositiveRatio(x: real, y: real)
    requires x > 0.0 && y > 0.0
    ensures x / y > 0.0
  {
  }

  /** All ratios measured lie between these two. */
  ghost predicate Between(m: Math, l: Level, es: seq<Measurement>, lo: real, hi: real) {
    forall e, r :: e in es && r in Measured(m, l.vertices, e) ==> lo <= r <= hi
  }

  lemma StepBounds(lo: real, hi: real, n: real, sum: real, r: real)
    requires lo * n <= sum <= hi * n && lo <= r <= hi
    ensures lo * (n + 1.0) <= sum + r <= hi * (n + 1.0)
  {
  }

  lemma RatiosLast(m: Math, l: Level, es: seq<Measurement>)
    requires es != []
    ensures var rs, one := Ratios(m, l.vertices, es[..|es| - 1]), Measured(m, l.vertices, es[|es| - 1]);
            var now := Ratios(m, l.vertices, es);
            if one == [] then now == rs
            else now == rs + one && |now| == |rs| + 1 && Sum(now) == Sum(rs) + one[0] && one[0] in one
  {
    hide Measured;
    var rs, one := Ratios(m, l.vertices, es[..|es| - 1]), Measured(m, l.vertices, es[|es| - 1]);
    if one == [] {
      assert rs + one == rs;
    } else {
      assert one == [one[0]] && (rs + one)[..|rs|] == rs;
    }
  }

  lemma {:induction false} SumBetween(m: Math, l: Level, es: seq<Measurement>, lo: real, hi: real)
    requires Between(m, l, es, lo, hi)
    ensures var rs := Ratios(m, l.vertices, es); lo * |rs| as real <= Sum(rs) <= hi * |rs| as real
  {
    hide Measured, Ratios, Sum;
    if es == [] {
      NoRatios(m, l);
    } else {
      var init, e := es[..|es| - 1], es[|es| - 1];
      assert es == init + [e] && e in es;
      assert Between(m, l, init, lo, hi);
      SumBetween(m, l, init, lo, hi);
      RatiosLast(m, l, es);
      var rs, one := Ratios(m, l.vertices, init), Measured(m, l.vertices, e);
      if one != [] {
        assert |Ratios(m, l.vertices, es)| as real == |rs| as real + 1.0;
        StepBounds(lo, hi, |rs| as real, Sum(rs), one[0]);
      }
    }
  }

  lemma NoRatios(m: Math, l: Level)
    ensures Ratios(m, l.vertices, []) == [] && Sum([]) == 0.0
  {
  }

  lemma {:induction false} RatiosPositive(m: Math, l: Level, es: seq<Measurement>)
    requires Lawful(m)
    ensures var rs := Ratios(m, l.vertices, es);
            && (rs != [] <==> exists e :: e in es && Usable(l, e)) && Sum(rs) >= 0.0 && (rs != [] ==> Sum(rs) > 0.0)
  {
    hide Measured, Ratios, Sum, Usable, Lawful;
    if es == [] {
      NoRatios(m, l);
    } else {
      var init, e := es[..|es| - 1], es[|es| - 1];
      assert es == init + [e];
      RatiosPositive(m, l, init);
      RatiosLast(m, l, es);
      MeasuredIs(m, l, e);
    }
  }

  /** A floor has a scale exactly when some measurement is usable, and it lies between the smallest and the
      largest ratio of these. */
  lemma MppBetween(m: Math, l: Level, lo: real, hi: real)
    requires Lawful(m)
    ensures DirectMpp(m, l) >= 0.0 && (DirectMpp(m, l) > 0.0 <==> exists e :: e in l.measurements && Usable(l, e))
    ensures DirectMpp(m, l) > 0.0 && Between(m, l, l.measurements, lo, hi) ==> lo <= DirectMpp(m, l) <= hi
  {
    hide Measured, Ratios, Sum, Usable, Lawful, Between;
    var rs := Ratios(m, l.vertices, l.measurements);
    RatiosPositive(m, l, l.measurements);
    if rs != [] {
      PositiveRatio(Sum(rs), |rs| as real);
      if Between(m, l, l.measurements, lo, hi) {
        SumBetween(m, l, l.measurements, lo, hi);
        MeanBetween(Sum(rs), |rs| as real, lo, hi);
      }
    }
  }

  lemma MeanBetween(sum: real, n: real, lo: real, hi: real)
    requires n > 0.0 && lo * n <= sum <= hi * n
    ensures lo <= sum / n <= hi
  {
    var q := sum / n;
    assert q * n == sum;
    Scales(n, q, lo);
    Scales(n, hi, q);
  }

  lemma Scales(k: real, x: real, y: real)
    requires k > 0.0
    ensures x * k < y * k <==> x < y
  {
    var d, dk := y - x, (y - x) * k;
    assert dk == y * k - x * k;
    assert d > 0.0 <==> dk > 0.0;
  }

  lemma GrownSquare(mpp: real, p: Point, q: Point)
    ensures Square(Less(Grown(mpp, p), Grown(mpp, q))) == mpp * mpp * Square(Less(p, q))
  {
    var dx, dy := p.x - q.x, p.y - q.y;
    var kx, ky := mpp * dx, mpp * dy;
    assert p.x * mpp - q.x * mpp == kx && -p.y * mpp - (-q.y * mpp) == -ky;
    Regrouped(mpp, dx, kx);
    Regrouped(mpp, dy, ky);
    var k, xx, yy := mpp * mpp, dx * dx, dy * dy;
    assert k * (xx + yy) == k * xx + k * yy;
    assert (-ky) * (-ky) == ky * ky;
  }

  /** On the main floor metres are pixels times its scale, with y turned over: lengths are scaled, what is
      to the right stays so, and what is above is below. */
  lemma MainMetres(m: Math, ls: seq<Level>, p: Point, q: Point)
    requires ls != []
    ensures var main, mpp := Anchor(m, ls).0, Anchor(m, ls).1;
            var a, b := ToMetres(m, ls, main, p), ToMetres(m, ls, main, q);
            && Square(Less(a, b)) == mpp * mpp * Square(Less(p, q))
            && (a.x < b.x <==> p.x < q.x) && (a.y < b.y <==> p.y > q.y)
  {
    hide Anchor, Square, Less;
    var mpp := Anchor(m, ls).1;
    GrownSquare(mpp, p, q);
    Scales(mpp, p.x, q.x);
    Scales(mpp, -p.y, -q.y);
  }

  /** When all usable measurements of the main floor agree, each is the distance in metres between its
      ends. */
  lemma MeasurementHolds(m: Math, ls: seq<Level>, e: Measurement, mpp: real)
    requires Lawful(m) && ls != []
    requires var l := ls[Anchor(m, ls).0];
             && e in l.measurements && Usable(l, e)
             && Between(m, l, l.measurements, mpp, mpp)
    ensures var l := ls[Anchor(m, ls).0];
            var a, b := ToMetres(m, ls, Anchor(m, ls).0, l.vertices[e.start]), ToMetres(m, ls, Anchor(m, ls).0, l.vertices[e.end]);
            Square(Less(a, b)) == e.distance * e.distance
  {
    hide Anchor, DirectMpp, ToMetres, Measured, Square, Lawful, Usable, Less, Between;
    var l, k := ls[Anchor(m, ls).0], Anchor(m, ls).1;
    EndsInside(l, e);
    var p, q := l.vertices[e.start], l.vertices[e.end];
    var a, b := ToMetres(m, ls, Anchor(m, ls).0, p), ToMetres(m, ls, Anchor(m, ls).0, q);
    MeasuredIs(m, l, e);
    var one := Measured(m, l.vertices, e)[0];
    OnlyRatio(m, l, e, mpp);
    MppBetween(m, l, mpp, mpp);
    AnchorDirect(m, ls);
    MainMetres(m, ls, p, q);
    SameScaled(one, k, Square(Less(p, q)), e.distance * e.distance, Square(Less(a, b)));
  }

  lemma EndsInside(l: Level, e: Measurement)
    requires Usable(l, e)
    ensures 0 <= e.start < |l.vertices| && 0 <= e.end < |l.vertices|
  {
  }

  lemma OnlyRatio(m: Math, l: Level, e: Measurement, mpp: real)
    requires Between(m, l, l.measurements, mpp, mpp) && e in l.measurements && Measured(m, l.vertices, e) != []
    ensures Measured(m, l.vertices, e)[0] == mpp
  {
    hide Measured;
    assert Measured(m, l.vertices, e)[0] in Measured(m, l.vertices, e);
  }

  lemma SameScaled(j: real, k: real, square: real, x: real, y: real)
    requires j == k && x == j * j * square && y == k * k * square
    ensures x == y
  {
  }

  lemma AnchorDirect(m: Math, ls: seq<Level>)
    requires ls != []
    ensures var d := DirectMpp(m, ls[Anchor(m, ls).0]); d > 0.0 ==> Anchor(m, ls).1 == d
  {
    hide DirectMpp, LevelMpp;
  }

  // ---------------------------------------------------------------- floors lie on each other

  /** A fiducial the floors share stays in place: from either floor's pixels it comes to the same metres, and
      back again, whenever the fit between the floors is exact. */
  lemma FiducialStays(m: Math, ls: seq<Level>, i: nat, r: nat, t: nat, related: Similarity)
    requires Lawful(m) && ls != [] && i < |ls| && i != Anchor(m, ls).0
    requires Namesakes(ls[Anchor(m, ls).0].fiducials, ls[i].fiducials, r, t)
    requires var ps := MatchPairs(ls[Anchor(m, ls).0].fiducials, ls[i].fiducials);
             && ps != [] && AllRelated(ps, related)
             && (|ps| == 1 || SumsOf(ps).s > TINY || SumsOf(ps).s == 0.0 || 1.0 * SumsOf(ps).s == Reach(m, SumsOf(ps)))
    ensures var main := Anchor(m, ls).0;
            var at := ToMetres(m, ls, main, ls[main].fiducials[r].at);
            && ToMetres(m, ls, i, ls[i].fiducials[t].at) == at
            && (Inverse(m, ls, i) ==> ToPixels(m, ls, i, at) == ls[i].fiducials[t].at)
  {
    hide Anchor, Lawful, MatchPairs, AllRelated, SumsOf, Reach, Fit, TgtToRef, RefToTgt, Exact, Grown, Shrunk, Namesakes;
    var main := Anchor(m, ls).0;
    var ref, target := ls[main].fiducials, ls[i].fiducials;
    var ps := MatchPairs(ref, target);
    NamesakeIndex(ref, target, r, t);
    FitIsExact(m, ps, 1.0, related);
    ExactAt(m, Fit(m, ps, 1.0), ref, target, r, t);
  }

  lemma NamesakeIndex(ref: seq<Fiducial>, target: seq<Fiducial>, r: nat, t: nat)
    requires Namesakes(ref, target, r, t)
    ensures r < |ref| && t < |target|
  {
  }

  lemma ExactAt(m: Math, xf: Transform, ref: seq<Fiducial>, target: seq<Fiducial>, r: nat, t: nat)
    requires Namesakes(ref, target, r, t) && Exact(m, xf, MatchPairs(ref, target))
    ensures TgtToRef(m, xf, target[t].at) == ref[r].at
  {
    hide TgtToRef, MatchPairs;
    var ps, p := MatchPairs(ref, target), Pair(ref[r].at, target[t].at);
    PairsAre(ref, target, p);
    var k :| 0 <= k < |ps| && ps[k] == p;
    assert TgtToRef(m, xf, ps[k].t) == ps[k].r;
  }

  // ---------------------------------------------------------------- keeping the scales

  /** `snapshot_level_mpps`: every floor that has no snapshot yet gets its scale as one. */
  function Snapshotted(m: Math, ls: seq<Level>): (r: seq<Level>)
    ensures |r| == |ls|
  {
    seq(|ls|, i requires 0 <= i < |ls| => Snapped(m, ls[i], FirstMpp(m, ls)))
  }

  function Snapped(m: Math, l: Level, fallback: real): Level {
    if l.snapshot > 0.0 then l
    else l.(snapshot := if DirectMpp(m, l) > 0.0 then DirectMpp(m, l) else fallback)
  }

  method SnapshotMpps(m: Math, levels: array<Level>)
    modifies levels
    ensures levels[..] == Snapshotted(m, old(levels[..]))
  {
    hide DirectMpp;
    ghost var was := levels[..];
    var fallback, k := 0.0, 0;
    while k < levels.Length && fallback <= 0.0
      invariant 0 <= k <= levels.Length && levels[..] == was
      invariant if fallback > 0.0 then fallback == FirstMpp(m, was) else fallback == 0.0 && MainFrom(m, was, k) == MainFrom(m, was, 0)
    {
      var one := MeasureMpp(m, levels[k]);
      if one > 0.0 { fallback := one; }
      k := k + 1;
    }
    assert fallback == FirstMpp(m, was);
    for i := 0 to levels.Length
      invariant forall j :: 0 <= j < levels.Length ==>
                  levels[j] == if j < i then Snapped(m, was[j], fallback) else was[j]
    {
      if levels[i].snapshot <= 0.0 {
        var one := MeasureMpp(m, levels[i]);
        levels[i] := levels[i].(snapshot := if one > 0.0 then one else fallback);
      }
    }
  }

  /** Snapshots change no floor's scale. */
  lemma SnapshotKeeps(m: Math, ls: seq<Level>, i: int)
    ensures LevelMpp(m, Snapshotted(m, ls), i) == LevelMpp(m, ls, i)
  {
    hide DirectMpp;
    SnappedMain(m, ls, 0);
    forall k | 0 <= k < |ls| ensures DirectMpp(m, Snapshotted(m, ls)[k]) == DirectMpp(m, ls[k]) {
      SnappedDirect(m, ls[k], FirstMpp(m, ls));
    }
  }

  lemma SnappedDirect(m: Math, l: Level, fallback: real)
    ensures DirectMpp(m, Snapped(m, l, fallback)) == DirectMpp(m, l)
  {
  }

  lemma {:induction false} SnappedMain(m: Math, ls: seq<Level>, k: nat)
    ensures MainFrom(m, Snapshotted(m, ls), k) == MainFrom(m, ls, k)
    decreases |ls| - k
  {
    hide DirectMpp;
    if k < |ls| {
      SnappedDirect(m, ls[k], FirstMpp(m, ls));
      SnappedMain(m, ls, k + 1);
    }
  }

  /** Once taken, a scale stays whatever becomes of the measurements and vertices of any floor. */
  lemma SnapshotStays(m: Math, ls: seq<Level>, later: seq<Level>, i: nat)
    requires i < |ls| == |later| && later[i].snapshot == Snapshotted(m, ls)[i].snapshot && LevelMpp(m, ls, i) > 0.0
    ensures LevelMpp(m, later, i) == LevelMpp(m, ls, i)
  {
    hide DirectMpp, FirstMpp;
  }
}
