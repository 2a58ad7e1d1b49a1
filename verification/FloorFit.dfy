/** The similarity fitted between two floors and the pixel mappings built on it, after
    `model/building.cpp`, over the reals. */
module FloorFit {
  datatype Point = Point(x: real, y: real)

  datatype Fiducial = Fiducial(at: Point, name: string)

  datatype Pair = Pair(r: Point, t: Point)

  /** The mathematics library, of which only the laws used here are known. */
  datatype Math = Math(sqrt: real -> real, atan2: (real, real) -> real, cos: real -> real, sin: real -> real)

  function Squares(a: real, b: real): real {
    a * a + b * b
  }

  ghost predicate Lawful(m: Math) {
    && (forall x :: x >= 0.0 ==> m.sqrt(x) >= 0.0 && m.sqrt(x) * m.sqrt(x) == x)
    && (forall a :: m.cos(a) * m.cos(a) + m.sin(a) * m.sin(a) == 1.0)
    && m.cos(0.0) == 1.0 && m.sin(0.0) == 0.0
    && (forall a, b :: m.sqrt(Squares(a, b)) * m.cos(m.atan2(b, a)) == a
                    && m.sqrt(Squares(a, b)) * m.sin(m.atan2(b, a)) == b)
  }

  /** `FloorTransform`. */
  datatype Transform = Transform(scale: real, yaw: real, tx: real, ty: real, matched: nat)

  const TINY: real := 0.000000000001

  // ---------------------------------------------------------------- similarities

  /** Any map `(x, y)` to `(ax - by + u, bx + ay + v)`: every turn, scale and shift of the plane. */
  datatype Similarity = Similarity(a: real, b: real, u: real, v: real)

  function Image(m: Similarity, p: Point): Point {
    Point(m.a * p.x - m.b * p.y + m.u, m.b * p.x + m.a * p.y + m.v)
  }

  function Off(m: Similarity, p: Pair): Point {
    Point(p.r.x - Image(m, p.t).x, p.r.y - Image(m, p.t).y)
  }

  function Square(p: Point): real {
    p.x * p.x + p.y * p.y
  }

  /** The sum of squared residuals. */
  function Cost(ps: seq<Pair>, m: Similarity): real {
    if ps == [] then 0.0 else Cost(ps[..|ps| - 1], m) + Square(Off(m, ps[|ps| - 1]))
  }

  // ---------------------------------------------------------------- the residuals of one fit

  /** Sums over the pairs: of the residuals, and of their two products with the target points. */
  datatype Sums = Sums(x: real, y: real, p: real, q: real)

  /** What one pair adds to the residual sums. */
  function Residual(e: Point, t: Point): Sums {
    Sums(e.x, e.y, e.x * t.x + e.y * t.y, e.y * t.x - e.x * t.y)
  }

  function Add(s: Sums, z: Sums): Sums {
    Sums(s.x + z.x, s.y + z.y, s.p + z.p, s.q + z.q)
  }

  function Residuals(ps: seq<Pair>, m: Similarity): Sums {
    if ps == [] then Sums(0.0, 0.0, 0.0, 0.0)
    else
      var s, l := Residuals(ps[..|ps| - 1], m), ps[|ps| - 1];
      Add(s, Residual(Off(m, l), l.t))
  }

  /** How far a change of the fit moves the target points, squared. */
  function Moved(ps: seq<Pair>, d: Similarity): real {
    if ps == [] then 0.0 else Moved(ps[..|ps| - 1], d) + Square(Image(d, ps[|ps| - 1].t))
  }

  function Plus(m: Similarity, d: Similarity): Similarity {
    Similarity(m.a + d.a, m.b + d.b, m.u + d.u, m.v + d.v)
  }

  function Along(d: Similarity, s: Sums): real {
    d.a * s.p + d.b * s.q + d.u * s.x + d.v * s.y
  }

  lemma ImagePlus(m: Similarity, d: Similarity, p: Point)
    ensures Image(Plus(m, d), p).x == Image(m, p).x + Image(d, p).x
    ensures Image(Plus(m, d), p).y == Image(m, p).y + Image(d, p).y
  {
  }

  lemma SquareMinus(e: Point, i: Point)
    ensures Square(Point(e.x - i.x, e.y - i.y)) == Square(e) - 2.0 * (e.x * i.x + e.y * i.y) + Square(i)
  {
  }

  lemma Distribute(k: real, x: real, y: real, sum: real)
    requires sum == x + y
    ensures k * sum == k * x + k * y
  {
    assert k * (x + y) == k * x + k * y;
  }

  lemma AlongAdd(d: Similarity, s: Sums, z: Sums, t: Sums)
    requires t == Add(s, z)
    ensures Along(d, t) == Along(d, s) + Along(d, z)
  {
    Distribute(d.a, s.p, z.p, t.p);
    Distribute(d.b, s.q, z.q, t.q);
    Distribute(d.u, s.x, z.x, t.x);
    Distribute(d.v, s.y, z.y, t.y);
  }

  function Dot(e: Point, i: Point): real {
    e.x * i.x + e.y * i.y
  }

  function DotSum(ps: seq<Pair>, m: Similarity, d: Similarity): real {
    if ps == [] then 0.0
    else DotSum(ps[..|ps| - 1], m, d) + Dot(Off(m, ps[|ps| - 1]), Image(d, ps[|ps| - 1].t))
  }

  lemma DotImage(e: Point, d: Similarity, t: Point)
    ensures Dot(e, Image(d, t)) == Along(d, Residual(e, t))
  {
  }

  lemma {:induction false} DotSumIs(ps: seq<Pair>, m: Similarity, d: Similarity)
    ensures DotSum(ps, m, d) == Along(d, Residuals(ps, m))
  {
    if ps != [] {
      hide Along, Dot, Image, Residual, Off;
      var rest, l := ps[..|ps| - 1], ps[|ps| - 1];
      DotSumIs(rest, m, d);
      DotImage(Off(m, l), d, l.t);
      AlongAdd(d, Residuals(rest, m), Residual(Off(m, l), l.t), Residuals(ps, m));
    }
  }

  lemma PairPlus(l: Pair, m: Similarity, d: Similarity)
    ensures Square(Off(Plus(m, d), l)) == Square(Off(m, l)) - 2.0 * Dot(Off(m, l), Image(d, l.t)) + Square(Image(d, l.t))
  {
    var e, i := Off(m, l), Image(d, l.t);
    ImagePlus(m, d, l.t);
    assert Off(Plus(m, d), l) == Point(e.x - i.x, e.y - i.y);
    SquareMinus(e, i);
  }

  /** The cost of a changed fit: the change along the residuals, and the move it makes. */
  lemma {:induction false} CostPlus(ps: seq<Pair>, m: Similarity, d: Similarity)
    ensures Cost(ps, Plus(m, d)) == Cost(ps, m) - 2.0 * DotSum(ps, m, d) + Moved(ps, d)
  {
    if ps != [] {
      CostPlus(ps[..|ps| - 1], m, d);
      PairPlus(ps[|ps| - 1], m, d);
    }
  }

  lemma {:induction false} MovedNonneg(ps: seq<Pair>, d: Similarity)
    ensures Moved(ps, d) >= 0.0
  {
    if ps != [] {
      MovedNonneg(ps[..|ps| - 1], d);
      var i := Image(d, ps[|ps| - 1].t);
      assert i.x * i.x >= 0.0 && i.y * i.y >= 0.0;
    }
  }

  // ---------------------------------------------------------------- least squares

  const ZERO: Sums := Sums(0.0, 0.0, 0.0, 0.0)

  lemma AlongZero(d: Similarity)
    ensures Along(d, ZERO) == 0.0
  {
  }

  function Change(m: Similarity, other: Similarity): Similarity {
    Similarity(other.a - m.a, other.b - m.b, other.u - m.u, other.v - m.v)
  }

  /** A fit whose residual sums vanish has the least cost of all similarities: any other costs
      more by exactly how far it moves the target points. */
  lemma LeastCost(ps: seq<Pair>, m: Similarity, other: Similarity)
    requires Residuals(ps, m) == ZERO
    ensures Cost(ps, other) == Cost(ps, m) + Moved(ps, Change(m, other))
    ensures Cost(ps, m) <= Cost(ps, other)
  {
    var d := Change(m, other);
    assert Plus(m, d) == other;
    hide Along, Change, Plus;
    AlongZero(d);
    CostPlus(ps, m, d);
    DotSumIs(ps, m, d);
    MovedNonneg(ps, d);
  }

  /** The centred sums of the fit: of the products, and of the squared target points. */
  datatype Centred = Centred(a: real, b: real, s: real)

  function Less(p: Point, c: Point): Point {
    Point(p.x - c.x, p.y - c.y)
  }

  function PairSums(r: Point, t: Point): Centred {
    Centred(r.x * t.x + r.y * t.y, r.y * t.x - r.x * t.y, t.x * t.x + t.y * t.y)
  }

  function CentredSums(ps: seq<Pair>, rc: Point, tc: Point): Centred {
    if ps == [] then Centred(0.0, 0.0, 0.0)
    else
      var z, l := CentredSums(ps[..|ps| - 1], rc, tc), ps[|ps| - 1];
      var w := PairSums(Less(l.r, rc), Less(l.t, tc));
      Centred(z.a + w.a, z.b + w.b, z.s + w.s)
  }

  /** The sums of the two points of every pair, less the two centres. */
  function Offsets(ps: seq<Pair>, rc: Point, tc: Point): Pair {
    if ps == [] then Pair(Point(0.0, 0.0), Point(0.0, 0.0))
    else
      var z, l := Offsets(ps[..|ps| - 1], rc, tc), ps[|ps| - 1];
      Pair(Point(z.r.x + (l.r.x - rc.x), z.r.y + (l.r.y - rc.y)),
           Point(z.t.x + (l.t.x - tc.x), z.t.y + (l.t.y - tc.y)))
  }

  /** The linear part of a similarity. */
  function Turned(a: real, b: real, p: Point): Point {
    Point(a * p.x - b * p.y, b * p.x + a * p.y)
  }

  /** The similarity with this linear part that takes one centre to the other. */
  function Centring(a: real, b: real, rc: Point, tc: Point): Similarity {
    Similarity(a, b, rc.x - (a * tc.x - b * tc.y), rc.y - (b * tc.x + a * tc.y))
  }

  lemma OffCentred(a: real, b: real, rc: Point, tc: Point, l: Pair)
    ensures var r, t := Less(l.r, rc), Less(l.t, tc);
            Off(Centring(a, b, rc, tc), l) == Point(r.x - Turned(a, b, t).x, r.y - Turned(a, b, t).y)
  {
    var r, t := Less(l.r, rc), Less(l.t, tc);
    Distribute(a, t.x, tc.x, l.t.x);
    Distribute(a, t.y, tc.y, l.t.y);
    Distribute(b, t.x, tc.x, l.t.x);
    Distribute(b, t.y, tc.y, l.t.y);
  }

  lemma TurnedStep(a: real, b: real, p: Point, i: Point, sum: Point)
    requires sum == Point(p.x + i.x, p.y + i.y)
    ensures Turned(a, b, sum) == Point(Turned(a, b, p).x + Turned(a, b, i).x, Turned(a, b, p).y + Turned(a, b, i).y)
  {
    Distribute(a, p.x, i.x, sum.x);
    Distribute(b, p.x, i.x, sum.x);
    Distribute(a, p.y, i.y, sum.y);
    Distribute(b, p.y, i.y, sum.y);
  }

  lemma {:induction false} ResidualSum(ps: seq<Pair>, a: real, b: real, rc: Point, tc: Point)
    ensures var s, o := Residuals(ps, Centring(a, b, rc, tc)), Offsets(ps, rc, tc);
            s.x == o.r.x - Turned(a, b, o.t).x && s.y == o.r.y - Turned(a, b, o.t).y
  {
    if ps == [] {
      assert Turned(a, b, Point(0.0, 0.0)) == Point(0.0, 0.0);
    } else {
      hide Turned, Centring, Off, Image;
      var rest, l := ps[..|ps| - 1], ps[|ps| - 1];
      ResidualSum(rest, a, b, rc, tc);
      OffCentred(a, b, rc, tc, l);
      var t := Less(l.t, tc);
      var z, o := Offsets(rest, rc, tc), Offsets(ps, rc, tc);
      assert o.t == Point(z.t.x + t.x, z.t.y + t.y);
      TurnedStep(a, b, z.t, t, o.t);
    }
  }

  /** How the products of the residuals follow from the centred sums. */
  ghost predicate Products(a: real, b: real, tc: Point, s: Sums, z: Centred) {
    && s.p == z.a - a * z.s + (tc.x * s.x + tc.y * s.y)
    && s.q == z.b - b * z.s + (tc.x * s.y - tc.y * s.x)
  }

  /** The same for one pair. */
  ghost predicate PairOf(a: real, b: real, tc: Point, e: Point, k: Sums, w: Centred) {
    k.x == e.x && k.y == e.y && Products(a, b, tc, k, w)
  }

  lemma PairProducts(e: Point, a: real, b: real, r: Point, t: Point, tc: Point, at: Point)
    requires e == Point(r.x - Turned(a, b, t).x, r.y - Turned(a, b, t).y)
    requires at == Point(t.x + tc.x, t.y + tc.y)
    ensures PairOf(a, b, tc, e, Residual(e, at), PairSums(r, t))
  {
    hide Turned;
    ShiftedDot(e, t, tc, at);
    ShiftedCross(e, t, tc, at);
    AlongT(a, b, r, t, e);
    AcrossT(a, b, r, t, e);
  }

  lemma ShiftedDot(e: Point, t: Point, tc: Point, at: Point)
    requires at == Point(t.x + tc.x, t.y + tc.y)
    ensures e.x * at.x + e.y * at.y == (e.x * t.x + e.y * t.y) + (tc.x * e.x + tc.y * e.y)
  {
    Distribute(e.x, t.x, tc.x, at.x);
    Distribute(e.y, t.y, tc.y, at.y);
  }

  lemma ShiftedCross(e: Point, t: Point, tc: Point, at: Point)
    requires at == Point(t.x + tc.x, t.y + tc.y)
    ensures e.y * at.x - e.x * at.y == (e.y * t.x - e.x * t.y) + (tc.x * e.y - tc.y * e.x)
  {
    Distribute(e.y, t.x, tc.x, at.x);
    Distribute(e.x, t.y, tc.y, at.y);
  }

  lemma AlongT(a: real, b: real, r: Point, t: Point, e: Point)
    requires e == Point(r.x - Turned(a, b, t).x, r.y - Turned(a, b, t).y)
    ensures e.x * t.x + e.y * t.y == (r.x * t.x + r.y * t.y) - a * (t.x * t.x + t.y * t.y)
  {
    assert (r.x - (a * t.x - b * t.y)) * t.x + (r.y - (b * t.x + a * t.y)) * t.y
        == (r.x * t.x + r.y * t.y) - a * (t.x * t.x + t.y * t.y);
  }

  lemma AcrossT(a: real, b: real, r: Point, t: Point, e: Point)
    requires e == Point(r.x - Turned(a, b, t).x, r.y - Turned(a, b, t).y)
    ensures e.y * t.x - e.x * t.y == (r.y * t.x - r.x * t.y) - b * (t.x * t.x + t.y * t.y)
  {
    assert (r.y - (b * t.x + a * t.y)) * t.x - (r.x - (a * t.x - b * t.y)) * t.y
        == (r.y * t.x - r.x * t.y) - b * (t.x * t.x + t.y * t.y);
  }

  lemma {:induction false} ResidualProducts(ps: seq<Pair>, a: real, b: real, rc: Point, tc: Point)
    ensures Products(a, b, tc, Residuals(ps, Centring(a, b, rc, tc)), CentredSums(ps, rc, tc))
  {
    if ps != [] {
      hide Turned, Centring, Off, Image, Residual, Products, PairOf;
      var rest, l := ps[..|ps| - 1], ps[|ps| - 1];
      var m := Centring(a, b, rc, tc);
      ResidualProducts(rest, a, b, rc, tc);
      OffCentred(a, b, rc, tc, l);
      var e, r, t := Off(m, l), Less(l.r, rc), Less(l.t, tc);
      PairProducts(e, a, b, r, t, tc, l.t);
      ProductsStep(a, b, tc, Residuals(rest, m), CentredSums(rest, rc, tc), Residuals(ps, m), CentredSums(ps, rc, tc),
                   e, Residual(e, l.t), PairSums(r, t));
    }
  }

  lemma ProductsStep(a: real, b: real, tc: Point, s: Sums, z: Centred, s': Sums, z': Centred, e: Point, k: Sums, w: Centred)
    requires Products(a, b, tc, s, z) && PairOf(a, b, tc, e, k, w)
    requires s' == Add(s, k) && z' == Centred(z.a + w.a, z.b + w.b, z.s + w.s)
    ensures Products(a, b, tc, s', z')
  {
    Distribute(a, z.s, w.s, z'.s);
    Distribute(b, z.s, w.s, z'.s);
    Distribute(tc.x, s.x, e.x, s'.x);
    Distribute(tc.y, s.y, e.y, s'.y);
    Distribute(tc.x, s.y, e.y, s'.y);
    Distribute(tc.y, s.x, e.x, s'.x);
  }

  function SumOf(ps: seq<Pair>): Pair {
    if ps == [] then Pair(Point(0.0, 0.0), Point(0.0, 0.0))
    else
      var z, l := SumOf(ps[..|ps| - 1]), ps[|ps| - 1];
      Pair(Point(z.r.x + l.r.x, z.r.y + l.r.y), Point(z.t.x + l.t.x, z.t.y + l.t.y))
  }

  /** The sums are `n` times the centres. */
  predicate CentresOf(sums: Pair, n: real, rc: Point, tc: Point) {
    sums.r.x == n * rc.x && sums.r.y == n * rc.y && sums.t.x == n * tc.x && sums.t.y == n * tc.y
  }

  ghost predicate OffsetIs(o: real, z: real, n: real, c: real) {
    o == z - n * c
  }

  lemma OffsetStep(o: real, z: real, n: real, c: real, l: real, n': real)
    requires OffsetIs(o, z, n, c) && n' == n + 1.0
    ensures OffsetIs(o + (l - c), z + l, n', c)
  {
    Distribute(c, n, 1.0, n');
  }

  lemma {:induction false} OffsetsAre(ps: seq<Pair>, rc: Point, tc: Point)
    ensures var o, z, n := Offsets(ps, rc, tc), SumOf(ps), |ps| as real;
            && OffsetIs(o.r.x, z.r.x, n, rc.x) && OffsetIs(o.r.y, z.r.y, n, rc.y)
            && OffsetIs(o.t.x, z.t.x, n, tc.x) && OffsetIs(o.t.y, z.t.y, n, tc.y)
  {
    if ps != [] {
      hide OffsetIs;
      var rest, l := ps[..|ps| - 1], ps[|ps| - 1];
      OffsetsAre(rest, rc, tc);
      var o, z, n, n' := Offsets(rest, rc, tc), SumOf(rest), |rest| as real, |ps| as real;
      OffsetStep(o.r.x, z.r.x, n, rc.x, l.r.x, n');
      OffsetStep(o.r.y, z.r.y, n, rc.y, l.r.y, n');
      OffsetStep(o.t.x, z.t.x, n, tc.x, l.t.x, n');
      OffsetStep(o.t.y, z.t.y, n, tc.y, l.t.y, n');
    }
  }

  /** With the centroids for centres, the normal equations make every residual sum vanish. */
  lemma NormalEquations(ps: seq<Pair>, a: real, b: real, rc: Point, tc: Point)
    requires CentresOf(SumOf(ps), |ps| as real, rc, tc)
    requires var z := CentredSums(ps, rc, tc); a * z.s == z.a && b * z.s == z.b
    ensures Residuals(ps, Centring(a, b, rc, tc)) == ZERO
  {
    OffsetsAre(ps, rc, tc);
    ResidualSum(ps, a, b, rc, tc);
    ResidualProducts(ps, a, b, rc, tc);
    var s := Residuals(ps, Centring(a, b, rc, tc));
    assert Turned(a, b, Point(0.0, 0.0)) == Point(0.0, 0.0);
    assert Offsets(ps, rc, tc) == Pair(Point(0.0, 0.0), Point(0.0, 0.0));
    assert s.x == 0.0 && s.y == 0.0;
  }

  // ---------------------------------------------------------------- how much worse another turn or scale is

  ghost predicate SizeIs(a: real, b: real, k: real) {
    k == a * a + b * b
  }

  lemma MovedPair(a: real, b: real, r: Point, t: Point, k: real)
    requires SizeIs(a, b, k)
    ensures Square(Turned(a, b, t)) == k * PairSums(r, t).s
  {
    var i := Turned(a, b, t);
    assert (a * t.x) * (b * t.y) == (b * t.x) * (a * t.y);
    SquaresOf(i.x, i.y, a * t.x, b * t.y, b * t.x, a * t.y);
    Foil(a, b, t.x, t.y, k, PairSums(r, t).s);
  }

  lemma Foil(a: real, b: real, x: real, y: real, k: real, s: real)
    requires k == a * a + b * b && s == x * x + y * y
    ensures k * s == (a * x) * (a * x) + (b * y) * (b * y) + (b * x) * (b * x) + (a * y) * (a * y)
  {
    Distribute(k, x * x, y * y, s);
    Distribute(x * x, a * a, b * b, k);
    Distribute(y * y, a * a, b * b, k);
  }

  lemma SquaresOf(x: real, y: real, p: real, q: real, r: real, t: real)
    requires x == p - q && y == r + t && p * q == r * t
    ensures x * x + y * y == p * p + q * q + r * r + t * t
  {
    assert (p - q) * (p - q) == p * p - 2.0 * (p * q) + q * q;
    assert (r + t) * (r + t) == r * r + 2.0 * (r * t) + t * t;
  }

  lemma TimesZero(k: real, zero: real)
    requires zero == 0.0
    ensures k * zero == 0.0
  {
  }

  lemma {:induction false} MovedIs(ps: seq<Pair>, d: Similarity, rc: Point, tc: Point, k: real)
    requires d.u == -(d.a * tc.x - d.b * tc.y) && d.v == -(d.b * tc.x + d.a * tc.y)
    requires SizeIs(d.a, d.b, k)
    ensures Moved(ps, d) == k * CentredSums(ps, rc, tc).s
  {
    if ps == [] {
      TimesZero(k, CentredSums(ps, rc, tc).s);
    } else {
      hide Image, Square, Turned, PairSums, SizeIs;
      var rest, l := ps[..|ps| - 1], ps[|ps| - 1];
      MovedIs(rest, d, rc, tc, k);
      var r, t := Less(l.r, rc), Less(l.t, tc);
      ImageAbout(d, l.t, tc);
      MovedPair(d.a, d.b, r, t, k);
      MovedStep(k, CentredSums(rest, rc, tc).s, PairSums(r, t).s, CentredSums(ps, rc, tc).s,
                Moved(rest, d), Square(Image(d, l.t)));
    }
  }

  lemma MovedStep(k: real, s0: real, s1: real, s2: real, moved: real, square: real)
    requires moved == k * s0 && square == k * s1 && s2 == s0 + s1
    ensures moved + square == k * s2
  {
    Distribute(k, s0, s1, s2);
  }

  lemma ImageAbout(d: Similarity, p: Point, tc: Point)
    requires d.u == -(d.a * tc.x - d.b * tc.y) && d.v == -(d.b * tc.x + d.a * tc.y)
    ensures Image(d, p) == Turned(d.a, d.b, Less(p, tc))
  {
    var t := Less(p, tc);
    Distribute(d.a, t.x, tc.x, p.x);
    Distribute(d.a, t.y, tc.y, p.y);
    Distribute(d.b, t.x, tc.x, p.x);
    Distribute(d.b, t.y, tc.y, p.y);
  }

  // ---------------------------------------------------------------- compute_floor_transform

  /** The first target of this name, if there is one. */
  function FirstNamed(target: seq<Fiducial>, name: string): seq<Point> {
    if target == [] then [] else if target[0].name == name then [target[0].at] else FirstNamed(target[1..], name)
  }

  function Matches(r: Fiducial, target: seq<Fiducial>): seq<Pair> {
    var t := FirstNamed(target, r.name);
    if r.name == [] || t == [] then [] else [Pair(r.at, t[0])]
  }

  function MatchPairs(ref: seq<Fiducial>, target: seq<Fiducial>): seq<Pair> {
    if ref == [] then [] else MatchPairs(ref[..|ref| - 1], target) + Matches(ref[|ref| - 1], target)
  }

  /** `target[j]` is the first of its list with the name of `ref[i]`, which has one. */
  predicate Namesakes(ref: seq<Fiducial>, target: seq<Fiducial>, i: nat, j: nat) {
    && i < |ref| && j < |target| && ref[i].name != [] && target[j].name == ref[i].name
    && forall k :: 0 <= k < j ==> target[k].name != ref[i].name
  }

  lemma {:induction false} FirstNamedAt(target: seq<Fiducial>, name: string)
    ensures FirstNamed(target, name) == [] <==> forall j :: 0 <= j < |target| ==> target[j].name != name
    ensures FirstNamed(target, name) != [] ==>
              exists j :: 0 <= j < |target| && target[j].name == name && FirstNamed(target, name) == [target[j].at]
                          && forall k :: 0 <= k < j ==> target[k].name != name
  {
    if target != [] && target[0].name != name {
      var rest := target[1..];
      FirstNamedAt(rest, name);
      assert forall j :: 1 <= j < |target| ==> target[j] == rest[j - 1];
      if FirstNamed(rest, name) != [] {
        var j :| 0 <= j < |rest| && rest[j].name == name && FirstNamed(rest, name) == [rest[j].at]
                 && forall k :: 0 <= k < j ==> rest[k].name != name;
        assert target[j + 1].name == name && FirstNamed(target, name) == [target[j + 1].at];
        assert forall k :: 0 <= k < j + 1 ==> target[k].name != name;
      }
    }
  }

  /** The pairs are exactly the named references with their first namesakes. */
  lemma {:induction false} PairsAre(ref: seq<Fiducial>, target: seq<Fiducial>, p: Pair)
    ensures p in MatchPairs(ref, target)
            <==> exists i: nat, j: nat :: Namesakes(ref, target, i, j) && p == Pair(ref[i].at, target[j].at)
  {
    if ref != [] {
      var n := |ref| - 1;
      PairsAre(ref[..n], target, p);
      LastPairs(ref, target, p);
      hide FirstNamed, Matches;
      forall i: nat, j: nat | i < n ensures Namesakes(ref, target, i, j) <==> Namesakes(ref[..n], target, i, j) {
        assert ref[..n][i] == ref[i];
      }
      if i: nat, j: nat :| Namesakes(ref, target, i, j) && p == Pair(ref[i].at, target[j].at) {
        if i < n { assert Namesakes(ref[..n], target, i, j) && ref[..n][i] == ref[i]; }
      }
      if i: nat, j: nat :| Namesakes(ref[..n], target, i, j) && p == Pair(ref[..n][i].at, target[j].at) {
        assert Namesakes(ref, target, i, j) && ref[..n][i] == ref[i];
      }
    }
  }

  lemma LastPairs(ref: seq<Fiducial>, target: seq<Fiducial>, p: Pair)
    requires ref != []
    ensures var n := |ref| - 1;
            p in Matches(ref[n], target) <==> exists j: nat :: Namesakes(ref, target, n, j) && p == Pair(ref[n].at, target[j].at)
  {
    var n := |ref| - 1;
    FirstNamedAt(target, ref[n].name);
    if j: nat :| Namesakes(ref, target, n, j) {
      assert target[j].name == ref[n].name;
      assert FirstNamed(target, ref[n].name) == [target[j].at];
    }
  }

  method FindPairs(ref: seq<Fiducial>, target: seq<Fiducial>) returns (pairs: seq<Pair>)
    ensures pairs == MatchPairs(ref, target)
  {
    pairs := [];
    for i := 0 to |ref|
      invariant pairs == MatchPairs(ref[..i], target)
    {
      assert ref[..i + 1][..i] == ref[..i];
      var r := ref[i];
      if r.name != [] {
        var j := 0;
        while j < |target| && target[j].name != r.name
          invariant 0 <= j <= |target|
          invariant FirstNamed(target[j..], r.name) == FirstNamed(target, r.name)
        {
          assert target[j..][1..] == target[j + 1..];
          j := j + 1;
        }
        if j < |target| { pairs := pairs + [Pair(r.at, target[j].at)]; }
      }
    }
    assert ref[..|ref|] == ref;
  }

  function Centre(sum: Point, n: real): Point
    requires n != 0.0
  {
    Point(sum.x / n, sum.y / n)
  }

  /** The two centres of the pairs. */
  function Centres(ps: seq<Pair>): Pair
    requires ps != []
  {
    Pair(Centre(SumOf(ps).r, |ps| as real), Centre(SumOf(ps).t, |ps| as real))
  }

  function SumsOf(ps: seq<Pair>): Centred
    requires ps != []
  {
    CentredSums(ps, Centres(ps).r, Centres(ps).t)
  }

  /** The transform of one pair: the initial scale, no turn, and the shift that makes it exact. */
  function Shifted(initial: real, p: Pair): Transform {
    Transform(initial, 0.0, p.r.x - initial * p.t.x, p.r.y - initial * p.t.y, 1)
  }

  /** The transform of two or more pairs with these centres and sums. */
  function Placed(m: Math, rc: Point, tc: Point, z: Centred, initial: real, n: nat): Transform {
    var yaw := m.atan2(z.b, z.a);
    var scale := if z.s > TINY then m.sqrt(Squares(z.a, z.b)) / z.s else initial;
    var cy, sy := m.cos(yaw), m.sin(yaw);
    Transform(scale, yaw, rc.x - scale * (cy * tc.x - sy * tc.y), rc.y - scale * (sy * tc.x + cy * tc.y), n)
  }

  /** The fitted transform of matched pairs. */
  function Fit(m: Math, ps: seq<Pair>, initial: real): Transform {
    if ps == [] then Transform(initial, 0.0, 0.0, 0.0, 0)
    else if |ps| == 1 then Shifted(initial, ps[0])
    else Placed(m, Centres(ps).r, Centres(ps).t, SumsOf(ps), initial, |ps|)
  }

  /** `compute_floor_transform`. */
  method ComputeFloorTransform(m: Math, ref: seq<Fiducial>, target: seq<Fiducial>, initial: real) returns (out: Transform)
    ensures out == Fit(m, MatchPairs(ref, target), initial)
  {
    var pairs := FindPairs(ref, target);
    if pairs == [] { return Transform(initial, 0.0, 0.0, 0.0, 0); }
    if |pairs| == 1 { return Shifted(initial, pairs[0]); }
    var rc, tc := FindCentres(pairs);
    var sums := AddProducts(pairs, rc, tc);
    out := Placed(m, rc, tc, sums, initial, |pairs|);
  }

  method FindCentres(pairs: seq<Pair>) returns (rc: Point, tc: Point)
    requires pairs != []
    ensures Pair(rc, tc) == Centres(pairs)
  {
    var rcx, rcy, tcx, tcy := 0.0, 0.0, 0.0, 0.0;
    for i := 0 to |pairs|
      invariant Pair(Point(rcx, rcy), Point(tcx, tcy)) == SumOf(pairs[..i])
    {
      assert pairs[..i + 1][..i] == pairs[..i];
      rcx, rcy := rcx + pairs[i].r.x, rcy + pairs[i].r.y;
      tcx, tcy := tcx + pairs[i].t.x, tcy + pairs[i].t.y;
    }
    assert pairs[..|pairs|] == pairs;
    var n := |pairs| as real;
    rc, tc := Centre(Point(rcx, rcy), n), Centre(Point(tcx, tcy), n);
  }

  method AddProducts(pairs: seq<Pair>, rc: Point, tc: Point) returns (sums: Centred)
    ensures sums == CentredSums(pairs, rc, tc)
  {
    sums := Centred(0.0, 0.0, 0.0);
    for i := 0 to |pairs|
      invariant sums == CentredSums(pairs[..i], rc, tc)
    {
      assert pairs[..i + 1][..i] == pairs[..i];
      var w := PairSums(Less(pairs[i].r, rc), Less(pairs[i].t, tc));
      sums := Centred(sums.a + w.a, sums.b + w.b, sums.s + w.s);
    }
    assert pairs[..|pairs|] == pairs;
  }

  // ---------------------------------------------------------------- the fit is the best there is

  /** A transform as a similarity: its turn and scale in one. */
  function Linear(m: Math, xf: Transform): Similarity {
    Similarity(xf.scale * m.cos(xf.yaw), xf.scale * m.sin(xf.yaw), xf.tx, xf.ty)
  }

  ghost predicate Best(ps: seq<Pair>, fit: Similarity) {
    forall other: Similarity :: Cost(ps, fit) <= Cost(ps, other)
  }

  lemma {:induction false} SpreadNonneg(ps: seq<Pair>, rc: Point, tc: Point)
    ensures var z := CentredSums(ps, rc, tc); z.s >= 0.0 && (z.s == 0.0 ==> z.a == 0.0 && z.b == 0.0)
  {
    if ps != [] {
      hide PairSums;
      SpreadNonneg(ps[..|ps| - 1], rc, tc);
      PairSpread(Less(ps[|ps| - 1].r, rc), Less(ps[|ps| - 1].t, tc));
    }
  }

  lemma PairSpread(r: Point, t: Point)
    ensures var w := PairSums(r, t); w.s >= 0.0 && (w.s == 0.0 ==> w.a == 0.0 && w.b == 0.0)
  {
    var w := PairSums(r, t);
    assert w.s == Squares(t.x, t.y);
    if t.x == 0.0 && t.y == 0.0 {
      TimesZero(r.x, t.x);
      TimesZero(r.y, t.y);
      TimesZero(r.y, t.x);
      TimesZero(r.x, t.y);
      TimesZero(t.x, t.x);
      TimesZero(t.y, t.y);
    } else {
      SquaresPositive(t.x, t.y);
    }
  }

  lemma SquaresPositive(x: real, y: real)
    requires x != 0.0 || y != 0.0
    ensures Squares(x, y) > 0.0
  {
    var p, q := x * x, y * y;
    SquareNonneg(x, p);
    SquareNonneg(y, q);
    assert Squares(x, y) == p + q;
  }

  lemma SquareNonneg(x: real, p: real)
    requires p == x * x
    ensures p >= 0.0 && (x != 0.0 ==> p > 0.0)
  {
    if x < 0.0 {
      assert p == (-x) * (-x);
      PositiveProduct(-x, -x, p);
    } else if x > 0.0 {
      PositiveProduct(x, x, p);
    }
  }

  lemma PositiveProduct(x: real, y: real, p: real)
    requires x > 0.0 && y > 0.0 && p == x * y
    ensures p > 0.0
  {
    assert x * y > 0.0;
  }

  lemma CentresAre(ps: seq<Pair>)
    requires ps != []
    ensures CentresOf(SumOf(ps), |ps| as real, Centres(ps).r, Centres(ps).t)
  {
    var z, n := SumOf(ps), |ps| as real;
    Undivide(z.r.x, n);
    Undivide(z.r.y, n);
    Undivide(z.t.x, n);
    Undivide(z.t.y, n);
  }

  lemma Undivide(x: real, n: real)
    requires n != 0.0
    ensures n * (x / n) == x && (x / n) * n == x
  {
  }

  /** The fitted transform is the centring one of its turn and scale. */
  lemma FitCentres(m: Math, ps: seq<Pair>, initial: real)
    requires |ps| >= 2
    ensures var s := Linear(m, Fit(m, ps, initial)); s == Centring(s.a, s.b, Centres(ps).r, Centres(ps).t)
  {
    var xf, tc := Fit(m, ps, initial), Centres(ps).t;
    var l := Linear(m, xf);
    Regroup(xf.scale, m.cos(xf.yaw), tc.x, m.sin(xf.yaw), tc.y, l.a, l.b);
  }

  lemma Regroup(k: real, c: real, x: real, s: real, y: real, kc: real, ks: real)
    requires kc == k * c && ks == k * s
    ensures k * (c * x - s * y) == kc * x - ks * y && k * (s * x + c * y) == ks * x + kc * y
  {
    assert k * (c * x - s * y) == (k * c) * x - (k * s) * y;
    assert k * (s * x + c * y) == (k * s) * x + (k * c) * y;
  }

  /** The length of the turn and scale the normal equations ask for. */
  function Reach(m: Math, z: Centred): real {
    m.sqrt(Squares(z.a, z.b))
  }

  lemma SameProduct(x: real, y: real, x': real, y': real)
    requires x == x' && y == y'
    ensures x * y == x' * y'
  {
  }

  lemma TurnLaw(m: Math, z: Centred, h: real, c: real, s: real)
    requires Lawful(m) && h == Reach(m, z)
    requires c == m.cos(m.atan2(z.b, z.a)) && s == m.sin(m.atan2(z.b, z.a))
    ensures h * c == z.a && h * s == z.b && c * c + s * s == 1.0
  {
    var root, yaw := m.sqrt(Squares(z.a, z.b)), m.atan2(z.b, z.a);
    SameProduct(h, c, root, m.cos(yaw));
    SameProduct(h, s, root, m.sin(yaw));
    SameProduct(c, c, m.cos(yaw), m.cos(yaw));
    SameProduct(s, s, m.sin(yaw), m.sin(yaw));
  }

  lemma SwapFactor(k: real, c: real, n: real, kc: real, kn: real)
    requires kc == k * c && kn == k * n
    ensures kc * n == kn * c
  {
    assert (k * c) * n == (k * n) * c;
  }

  /** A fit of scale `k` and turn `(c, s)` meets the normal equations exactly when its scale times
      the spread is the reach. */
  lemma ScaleMeets(z: Centred, h: real, k: real, c: real, s: real, kc: real, ks: real)
    requires h * c == z.a && h * s == z.b && c * c + s * s == 1.0
    requires kc == k * c && ks == k * s
    ensures kc * z.s == z.a && ks * z.s == z.b <==> k * z.s == h
  {
    var kn := k * z.s;
    SwapFactor(k, c, z.s, kc, kn);
    SwapFactor(k, s, z.s, ks, kn);
    SameAlong(kn, h, c, s);
  }

  lemma SameAlong(x: real, h: real, c: real, s: real)
    requires c * c + s * s == 1.0
    ensures x * c == h * c && x * s == h * s <==> x == h
  {
    if x * c == h * c && x * s == h * s {
      Unturned(x, c, s, x * c, x * s);
      Unturned(h, c, s, x * c, x * s);
    }
  }

  lemma Unturned(x: real, c: real, s: real, xc: real, xs: real)
    requires c * c + s * s == 1.0 && xc == x * c && xs == x * s
    ensures xc * c + xs * s == x
  {
    assert (x * c) * c + (x * s) * s == x * (c * c + s * s);
  }

  ghost predicate Meets(fit: Similarity, z: Centred) {
    fit.a * z.s == z.a && fit.b * z.s == z.b
  }

  /** A similarity that takes the centre of the targets to that of the references. */
  ghost predicate TakesCentre(ps: seq<Pair>, fit: Similarity) {
    ps != [] && fit == Centring(fit.a, fit.b, Centres(ps).r, Centres(ps).t)
  }

  lemma MeetsVanish(ps: seq<Pair>, fit: Similarity)
    requires TakesCentre(ps, fit) && Meets(fit, SumsOf(ps))
    ensures Residuals(ps, fit) == ZERO
  {
    CentresAre(ps);
    hide Centres, CentresOf, Centring, Residuals, CentredSums;
    NormalEquations(ps, fit.a, fit.b, Centres(ps).r, Centres(ps).t);
  }

  /** A fit that meets the normal equations is the best. */
  lemma MeetsBest(ps: seq<Pair>, fit: Similarity)
    requires TakesCentre(ps, fit) && Meets(fit, SumsOf(ps))
    ensures Best(ps, fit)
  {
    MeetsVanish(ps, fit);
    forall other: Similarity ensures Cost(ps, fit) <= Cost(ps, other) {
      LeastCost(ps, fit, other);
    }
  }

  lemma SomeMeets(ps: seq<Pair>) returns (best: Similarity)
    requires ps != [] && SumsOf(ps).s > 0.0
    ensures TakesCentre(ps, best) && Meets(best, SumsOf(ps))
  {
    var z := SumsOf(ps);
    best := Centring(z.a / z.s, z.b / z.s, Centres(ps).r, Centres(ps).t);
    Undivide(z.a, z.s);
    Undivide(z.b, z.s);
    SameProduct(best.a, z.s, z.a / z.s, z.s);
    SameProduct(best.b, z.s, z.b / z.s, z.s);
  }

  /** Two fits that take the centre to the centre, only one of which meets the equations, differ. */
  lemma Differ(fit: Similarity, best: Similarity, z: Centred)
    requires Meets(best, z) && !Meets(fit, z)
    ensures Squares(fit.a - best.a, fit.b - best.b) > 0.0
  {
    if fit.a == best.a && fit.b == best.b {
      SameProduct(fit.a, z.s, best.a, z.s);
      SameProduct(fit.b, z.s, best.b, z.s);
      assert false;
    }
    SquaresPositive(fit.a - best.a, fit.b - best.b);
  }

  /** A fit that does not meet them, over targets that are not all one point, is beaten. */
  lemma MissesBeaten(ps: seq<Pair>, fit: Similarity)
    requires TakesCentre(ps, fit) && SumsOf(ps).s > 0.0 && !Meets(fit, SumsOf(ps))
    ensures !Best(ps, fit)
  {
    var best := SomeMeets(ps);
    Differ(fit, best, SumsOf(ps));
    MeetsVanish(ps, best);
    var d, k := Change(best, fit), Squares(fit.a - best.a, fit.b - best.b);
    CentringChange(fit.a, fit.b, best.a, best.b, Centres(ps).r, Centres(ps).t);
    MovedTo(ps, d, k);
    hide Change, Centring, Meets, Squares, CentredSums, Centres;
    LeastCost(ps, best, fit);
    assert Cost(ps, best) < Cost(ps, fit);
  }

  lemma MovedTo(ps: seq<Pair>, d: Similarity, k: real)
    requires ps != [] && SumsOf(ps).s > 0.0 && k == Squares(d.a, d.b) && k > 0.0
    requires var tc := Centres(ps).t; d.u == -(d.a * tc.x - d.b * tc.y) && d.v == -(d.b * tc.x + d.a * tc.y)
    ensures Moved(ps, d) > 0.0
  {
    MovedIs(ps, d, Centres(ps).r, Centres(ps).t, k);
    PositiveProduct(k, SumsOf(ps).s, Moved(ps, d));
  }

  lemma CentringChange(a: real, b: real, a0: real, b0: real, rc: Point, tc: Point)
    ensures var d := Change(Centring(a0, b0, rc, tc), Centring(a, b, rc, tc));
            d.u == -(d.a * tc.x - d.b * tc.y) && d.v == -(d.b * tc.x + d.a * tc.y)
  {
    var da, db := a - a0, b - b0;
    Distribute(tc.x, a0, da, a);
    Distribute(tc.y, a0, da, a);
    Distribute(tc.x, b0, db, b);
    Distribute(tc.y, b0, db, b);
  }

  lemma FitMeets(m: Math, ps: seq<Pair>, initial: real)
    requires Lawful(m) && |ps| >= 2
    ensures var z, xf := SumsOf(ps), Fit(m, ps, initial);
            Meets(Linear(m, xf), z) <==> xf.scale * z.s == Reach(m, z)
  {
    hide Meets, Reach, Linear, Lawful, Fit, SumsOf;
    var z, xf := SumsOf(ps), Fit(m, ps, initial);
    FitTurn(m, ps, initial);
    TurnMeets(m, z, xf, Linear(m, xf));
  }

  lemma FitTurn(m: Math, ps: seq<Pair>, initial: real)
    requires |ps| >= 2
    ensures Fit(m, ps, initial).yaw == m.atan2(SumsOf(ps).b, SumsOf(ps).a)
  {
    hide SumsOf, Centres;
  }

  lemma TurnMeets(m: Math, z: Centred, xf: Transform, fit: Similarity)
    requires Lawful(m) && xf.yaw == m.atan2(z.b, z.a) && fit == Linear(m, xf)
    ensures Meets(fit, z) <==> xf.scale * z.s == Reach(m, z)
  {
    var h, c, s := Reach(m, z), m.cos(xf.yaw), m.sin(xf.yaw);
    TurnLaw(m, z, h, c, s);
    hide Reach, Squares, Lawful;
    ScaleMeets(z, h, xf.scale, c, s, fit.a, fit.b);
  }

  lemma FitScale(m: Math, ps: seq<Pair>, initial: real)
    requires |ps| >= 2
    ensures var z, xf := SumsOf(ps), Fit(m, ps, initial);
            if z.s > TINY then xf.scale * z.s == Reach(m, z) else xf.scale == initial
  {
    var z, xf := SumsOf(ps), Fit(m, ps, initial);
    if z.s > TINY {
      var h := Reach(m, z);
      Undivide(h, z.s);
      SameProduct(xf.scale, z.s, h / z.s, z.s);
    }
  }

  /** Of all similarities of the plane the fit has the least sum of squared residuals exactly when
      the targets are spread beyond the threshold, or all in one place, or the initial scale
      happens to be the right one. */
  lemma FitIsBest(m: Math, ps: seq<Pair>, initial: real)
    requires Lawful(m) && |ps| >= 2
    ensures var z := SumsOf(ps);
            Best(ps, Linear(m, Fit(m, ps, initial)))
            <==> (z.s > TINY || z.s == 0.0 || initial * z.s == Reach(m, z))
  {
    var z, xf := SumsOf(ps), Fit(m, ps, initial);
    var fit, c := Linear(m, xf), Centres(ps);
    FitCentres(m, ps, initial);
    assert TakesCentre(ps, fit);
    SpreadNonneg(ps, c.r, c.t);
    FitMeets(m, ps, initial);
    FitScale(m, ps, initial);
    if z.s == 0.0 {
      FlatMeets(fit, z);
    }
    hide Meets, TakesCentre, Linear, Reach, SumsOf, Best, Fit;
    if Meets(fit, z) {
      MeetsBest(ps, fit);
    } else {
      MissesBeaten(ps, fit);
      SameProduct(xf.scale, z.s, initial, z.s);
    }
  }

  /** Two fiducials a millionth apart on one floor and two apart on the other. */
  function CloseTargets(): seq<Pair> {
    [Pair(Point(-1.0, 0.0), Point(-0.0000005, 0.0)), Pair(Point(1.0, 0.0), Point(0.0000005, 0.0))]
  }

  lemma CloseSums()
    ensures SumsOf(CloseTargets()) == Centred(0.000001, 0.0, 0.0000000000005)
  {
    var ps := CloseTargets();
    assert ps[..1] == [ps[0]] && ps[..1][..0] == [] && ps[..0] == [];
    assert SumOf(ps[..1]) == ps[0];
    assert SumOf(ps) == Pair(Point(0.0, 0.0), Point(0.0, 0.0));
    assert Centres(ps) == Pair(Point(0.0, 0.0), Point(0.0, 0.0));
    assert CentredSums(ps[..1], Point(0.0, 0.0), Point(0.0, 0.0)) == Centred(0.0000005, 0.0, 0.00000000000025);
  }

  /** They are too close for their scale to be fitted: the initial scale of 1 stays, and is not the best. */
  lemma FitNotBest(m: Math)
    requires Lawful(m)
    ensures !Best(CloseTargets(), Linear(m, Fit(m, CloseTargets(), 1.0)))
  {
    CloseSums();
    FitIsBest(m, CloseTargets(), 1.0);
    hide SumsOf, Best, Linear, Fit;
    var z := Centred(0.000001, 0.0, 0.0000000000005);
    assert Squares(z.a, z.b) == 0.000000000001;
    assert Reach(m, z) * Reach(m, z) == 0.000000000001;
    assert 1.0 * z.s != Reach(m, z);
  }

  lemma FlatMeets(fit: Similarity, z: Centred)
    requires z.s == 0.0 && z.a == 0.0 && z.b == 0.0
    ensures Meets(fit, z)
  {
    TimesZero(fit.a, z.s);
    TimesZero(fit.b, z.s);
  }

  predicate Relates(m: Similarity, p: Pair) {
    Image(m, p.t) == p.r
  }

  lemma SquareZero(e: Point)
    ensures Square(e) >= 0.0 && (Square(e) == 0.0 <==> e == Point(0.0, 0.0))
  {
    assert Square(e) == Squares(e.x, e.y);
    if e.x == 0.0 && e.y == 0.0 {
      TimesZero(e.x, e.x);
      TimesZero(e.y, e.y);
    } else {
      hide Square;
      SquaresPositive(e.x, e.y);
    }
  }

  lemma RelatesIff(m: Similarity, p: Pair)
    ensures Square(Off(m, p)) >= 0.0 && (Square(Off(m, p)) == 0.0 <==> Relates(m, p))
  {
    hide Square, Image;
    SquareZero(Off(m, p));
  }

  predicate AllRelated(ps: seq<Pair>, m: Similarity) {
    ps == [] || (AllRelated(ps[..|ps| - 1], m) && Relates(m, ps[|ps| - 1]))
  }

  /** The cost is nought exactly when every pair is related exactly. */
  lemma {:induction false} CostZero(ps: seq<Pair>, m: Similarity)
    ensures Cost(ps, m) >= 0.0
    ensures Cost(ps, m) == 0.0 <==> AllRelated(ps, m)
  {
    if ps != [] {
      hide Square, Off, Relates, Image;
      CostZero(ps[..|ps| - 1], m);
      RelatesIff(m, ps[|ps| - 1]);
    }
  }

  lemma {:induction false} RelatedAt(ps: seq<Pair>, m: Similarity, k: nat)
    requires AllRelated(ps, m) && k < |ps|
    ensures Relates(m, ps[k])
  {
    if k < |ps| - 1 {
      hide Relates;
      assert ps[k] == ps[..|ps| - 1][k];
      RelatedAt(ps[..|ps| - 1], m, k);
    }
  }

  // ---------------------------------------------------------------- applying a transform

  /** `tgt_to_ref`. */
  function TgtToRef(m: Math, xf: Transform, p: Point): Point {
    var cy, sy := m.cos(xf.yaw), m.sin(xf.yaw);
    var a, b := p.x * xf.scale, p.y * xf.scale;
    Point(xf.tx + cy * a - sy * b, xf.ty + sy * a + cy * b)
  }

  /** `ref_to_tgt`. */
  function RefToTgt(m: Math, xf: Transform, p: Point): Point {
    if xf.scale < TINY then Point(0.0, 0.0)
    else
      var cy, sy := m.cos(xf.yaw), m.sin(xf.yaw);
      var dx, dy := p.x - xf.tx, p.y - xf.ty;
      Point((cy * dx + sy * dy) / xf.scale, (-sy * dx + cy * dy) / xf.scale)
  }

  lemma TgtToRefIs(m: Math, xf: Transform, p: Point)
    ensures TgtToRef(m, xf, p) == Image(Linear(m, xf), p)
  {
    var l, c, s := Linear(m, xf), m.cos(xf.yaw), m.sin(xf.yaw);
    var a, b := p.x * xf.scale, p.y * xf.scale;
    Scaled(c, xf.scale, p.x, l.a, a);
    Scaled(c, xf.scale, p.y, l.a, b);
    Scaled(s, xf.scale, p.x, l.b, a);
    Scaled(s, xf.scale, p.y, l.b, b);
    assert TgtToRef(m, xf, p) == Point(xf.tx + c * a - s * b, xf.ty + s * a + c * b);
    assert Image(l, p) == Point(l.a * p.x - l.b * p.y + xf.tx, l.b * p.x + l.a * p.y + xf.ty);
  }

  lemma Scaled(c: real, k: real, x: real, kc: real, xk: real)
    requires kc == k * c && xk == x * k
    ensures c * xk == kc * x
  {
    assert c * (x * k) == (k * c) * x;
  }

  lemma ShiftedExact(m: Math, p: Pair, initial: real)
    requires Lawful(m)
    ensures Relates(Linear(m, Shifted(initial, p)), p)
  {
  }

  /** The transform takes every target to its reference. */
  ghost predicate Exact(m: Math, xf: Transform, ps: seq<Pair>) {
    forall k :: 0 <= k < |ps| ==> TgtToRef(m, xf, ps[k].t) == ps[k].r
  }

  lemma {:induction false} RelatedAll(ps: seq<Pair>, m: Similarity)
    requires forall k :: 0 <= k < |ps| ==> Relates(m, ps[k])
    ensures AllRelated(ps, m)
  {
    if ps != [] {
      hide Relates;
      assert forall k :: 0 <= k < |ps| - 1 ==> ps[..|ps| - 1][k] == ps[k];
      RelatedAll(ps[..|ps| - 1], m);
    }
  }

  lemma ExactRelates(m: Math, xf: Transform, ps: seq<Pair>)
    ensures Exact(m, xf, ps) <==> AllRelated(ps, Linear(m, xf))
  {
    var fit := Linear(m, xf);
    forall k | 0 <= k < |ps| ensures TgtToRef(m, xf, ps[k].t) == ps[k].r <==> Relates(fit, ps[k]) {
      TgtToRefIs(m, xf, ps[k].t);
    }
    hide TgtToRef, Relates, Linear;
    if Exact(m, xf, ps) {
      RelatedAll(ps, fit);
    }
    if AllRelated(ps, fit) {
      forall k | 0 <= k < |ps| ensures TgtToRef(m, xf, ps[k].t) == ps[k].r {
        RelatedAt(ps, fit, k);
      }
    }
  }

  /** When some similarity relates all pairs exactly, the fit takes every target to its reference exactly
      when there is one pair, or under the condition of the best fit. */
  lemma FitIsExact(m: Math, ps: seq<Pair>, initial: real, related: Similarity)
    requires Lawful(m) && ps != [] && AllRelated(ps, related)
    ensures var z := SumsOf(ps);
            Exact(m, Fit(m, ps, initial), ps)
            <==> (|ps| == 1 || z.s > TINY || z.s == 0.0 || initial * z.s == Reach(m, z))
  {
    var fit := Linear(m, Fit(m, ps, initial));
    ExactRelates(m, Fit(m, ps, initial), ps);
    if |ps| == 1 {
      ShiftedExact(m, ps[0], initial);
    } else {
      hide Linear, Fit, SumsOf, Best, Reach, Exact, AllRelated;
      FitIsBest(m, ps, initial);
      BestRelated(ps, fit, related);
    }
  }

  lemma BestRelated(ps: seq<Pair>, fit: Similarity, related: Similarity)
    requires AllRelated(ps, related)
    ensures Best(ps, fit) <==> AllRelated(ps, fit)
  {
    hide Cost, AllRelated;
    CostZero(ps, related);
    CostZero(ps, fit);
    if AllRelated(ps, fit) {
      forall other: Similarity ensures Cost(ps, fit) <= Cost(ps, other) {
        CostZero(ps, other);
      }
    } else {
      assert !(Cost(ps, fit) <= Cost(ps, related));
    }
  }

  lemma Rotated(c: real, s: real, x: real, y: real, dx: real, dy: real)
    requires c * c + s * s == 1.0 && dx == c * x - s * y && dy == s * x + c * y
    ensures c * dx + s * dy == x && -s * dx + c * dy == y
  {
    assert c * (c * x - s * y) + s * (s * x + c * y) == (c * c + s * s) * x;
    assert -s * (c * x - s * y) + c * (s * x + c * y) == (c * c + s * s) * y;
  }

  /** The two directions are mutual inverses for every scale the inverse accepts. */
  lemma TransformInverse(m: Math, xf: Transform, p: Point)
    requires Lawful(m) && xf.scale >= TINY
    ensures RefToTgt(m, xf, TgtToRef(m, xf, p)) == p
    ensures TgtToRef(m, xf, RefToTgt(m, xf, p)) == p
  {
    ThereAndBack(m, xf, p);
    BackAndThere(m, xf, p);
  }

  lemma ThereAndBack(m: Math, xf: Transform, p: Point)
    requires Lawful(m) && xf.scale >= TINY
    ensures RefToTgt(m, xf, TgtToRef(m, xf, p)) == p
  {
    var c, s, k := m.cos(xf.yaw), m.sin(xf.yaw), xf.scale;
    var q := TgtToRef(m, xf, p);
    Rotated(c, s, p.x * k, p.y * k, q.x - xf.tx, q.y - xf.ty);
    Redivide(p.x, k, p.x * k);
    Redivide(p.y, k, p.y * k);
  }

  lemma BackAndThere(m: Math, xf: Transform, p: Point)
    requires Lawful(m) && xf.scale >= TINY
    ensures TgtToRef(m, xf, RefToTgt(m, xf, p)) == p
  {
    var c, s, k := m.cos(xf.yaw), m.sin(xf.yaw), xf.scale;
    var r, dx, dy := RefToTgt(m, xf, p), p.x - xf.tx, p.y - xf.ty;
    Undivide(c * dx + s * dy, k);
    Undivide(-s * dx + c * dy, k);
    Rotated(c, -s, dx, dy, r.x * k, r.y * k);
  }

  lemma Redivide(x: real, k: real, xk: real)
    requires k != 0.0 && xk == x * k
    ensures xk / k == x
  {
    assert (x * k) / k == x;
  }
}
