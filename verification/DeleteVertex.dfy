/** Deleting vertices of a floor and renumbering what refers to them, after
    `model/building.cpp`. */
module DeleteVertex {
  /** Lanes, walls, doors and measurements alike; `data` stands for the parameters. */
  datatype Edge = Edge(start: int, end: int, data: nat)

  datatype Floor = Floor(vertices: seq<int>, holes: seq<seq<int>>, data: nat)

  datatype Plan<V> = Plan(vertices: seq<V>, lanes: seq<Edge>, walls: seq<Edge>, doors: seq<Edge>,
                          measurements: seq<Edge>, floors: seq<Floor>)

  // ---------------------------------------------------------------- one pass for a whole set

  /** Which vertices are to go; an index outside has nothing to go. */
  type Gone = seq<bool>

  predicate Goes(gone: Gone, i: int) {
    0 <= i < |gone| && gone[i]
  }

  /** How many of the vertices before `i` go. */
  function Below(gone: Gone, i: int): (n: nat)
    ensures i > 0 ==> n <= i
    decreases if i > 0 then i else 0
  {
    if i <= 0 then 0 else Below(gone, i - 1) + (if Goes(gone, i - 1) then 1 else 0)
  }

  function Renumber(gone: Gone, i: int): int {
    i - Below(gone, i)
  }

  function Kept<V>(gone: Gone, vs: seq<V>): seq<V> {
    if vs == [] then []
    else Kept(gone, vs[..|vs| - 1]) + (if Goes(gone, |vs| - 1) then [] else [vs[|vs| - 1]])
  }

  function KeptEdges(gone: Gone, es: seq<Edge>): seq<Edge> {
    if es == [] then []
    else
      var e := es[|es| - 1];
      KeptEdges(gone, es[..|es| - 1])
      + (if Goes(gone, e.start) || Goes(gone, e.end) then []
         else [e.(start := Renumber(gone, e.start), end := Renumber(gone, e.end))])
  }

  function KeptLoop(gone: Gone, loop: seq<int>): seq<int> {
    if loop == [] then []
    else
      var v := loop[|loop| - 1];
      KeptLoop(gone, loop[..|loop| - 1]) + (if Goes(gone, v) then [] else [Renumber(gone, v)])
  }

  function KeptHoles(gone: Gone, holes: seq<seq<int>>): seq<seq<int>> {
    if holes == [] then []
    else
      var h := KeptLoop(gone, holes[|holes| - 1]);
      KeptHoles(gone, holes[..|holes| - 1]) + (if |h| >= 3 then [h] else [])
  }

  function KeptFloors(gone: Gone, fs: seq<Floor>): seq<Floor> {
    if fs == [] then []
    else
      var f := fs[|fs| - 1];
      var loop := KeptLoop(gone, f.vertices);
      KeptFloors(gone, fs[..|fs| - 1])
      + (if |loop| < 3 then [] else [f.(vertices := loop, holes := KeptHoles(gone, f.holes))])
  }

  /** Every vertex that goes filtered out at once, and everything renumbered at once. */
  function KeptPlan<V>(gone: Gone, p: Plan<V>): Plan<V> {
    Plan(Kept(gone, p.vertices), KeptEdges(gone, p.lanes), KeptEdges(gone, p.walls), KeptEdges(gone, p.doors),
         KeptEdges(gone, p.measurements), KeptFloors(gone, p.floors))
  }

  function None(n: nat): (gone: Gone)
    ensures |gone| == n
  {
    seq(n, _ => false)
  }

  function One(n: nat, v: int): (gone: Gone)
    ensures |gone| == n
  {
    seq(n, i => i == v)
  }

  // ---------------------------------------------------------------- delete_vertex

  class Level<V> {
    var vertices: seq<V>
    var lanes: seq<Edge>
    var walls: seq<Edge>
    var doors: seq<Edge>
    var measurements: seq<Edge>
    var floors: seq<Floor>

    constructor (p: Plan<V>)
      ensures View() == p
    {
      vertices, lanes, walls, doors, measurements, floors := p.vertices, p.lanes, p.walls, p.doors, p.measurements, p.floors;
    }

    function View(): Plan<V>
      reads this
    {
      Plan(vertices, lanes, walls, doors, measurements, floors)
    }

    /** `delete_vertex`. */
    method Delete(v: int)
      modifies this
      ensures View() == if 0 <= v < |old(vertices)| then KeptPlan(One(|old(vertices)|, v), old(View())) else old(View())
    {
      if v < 0 || v >= |vertices| { return; }
      ghost var n := |vertices|;
      lanes := ReindexEdges(lanes, v, n);
      walls := ReindexEdges(walls, v, n);
      doors := ReindexEdges(doors, v, n);
      measurements := ReindexEdges(measurements, v, n);
      floors := ReindexFloors(floors, v, n);
      KeptErases(vertices, v);
      vertices := vertices[..v] + vertices[v + 1..];
    }
  }

  lemma {:induction false} BelowOne(n: nat, v: int, i: int)
    requires 0 <= v < n
    ensures Below(One(n, v), i) == if i > v then 1 else 0
    decreases if i > 0 then i else 0
  {
    if i > 0 {
      BelowOne(n, v, i - 1);
    }
  }

  lemma OneIs(n: nat, v: int, i: int)
    requires 0 <= v < n
    ensures Renumber(One(n, v), i) == if i > v then i - 1 else i
    ensures Goes(One(n, v), i) <==> i == v
  {
    BelowOne(n, v, i);
  }

  lemma {:induction false} KeptErases<V>(vs: seq<V>, v: int, k: nat := |vs|)
    requires 0 <= v < |vs| && k <= |vs|
    ensures Kept(One(|vs|, v), vs[..k]) == if k <= v then vs[..k] else vs[..v] + vs[v + 1..k]
    ensures k == |vs| ==> Kept(One(|vs|, v), vs) == vs[..v] + vs[v + 1..]
    decreases k
  {
    if k > 0 {
      KeptErases(vs, v, k - 1);
      assert vs[..k][..k - 1] == vs[..k - 1];
    }
    assert vs[..|vs|] == vs;
  }

  method ReindexEdges(edges: seq<Edge>, v: int, ghost n: nat) returns (kept: seq<Edge>)
    requires 0 <= v < n
    ensures kept == KeptEdges(One(n, v), edges)
  {
    hide One, Renumber, Goes;
    kept := [];
    for i := 0 to |edges|
      invariant kept == KeptEdges(One(n, v), edges[..i])
    {
      assert edges[..i + 1][..i] == edges[..i];
      var e := edges[i];
      OneIs(n, v, e.start);
      OneIs(n, v, e.end);
      if e.start != v && e.end != v {
        var start := if e.start > v then e.start - 1 else e.start;
        var end := if e.end > v then e.end - 1 else e.end;
        kept := kept + [e.(start := start, end := end)];
      }
    }
    assert edges[..|edges|] == edges;
  }

  method ReindexLoop(loop: seq<int>, v: int, ghost n: nat) returns (kept: seq<int>)
    requires 0 <= v < n
    ensures kept == KeptLoop(One(n, v), loop)
  {
    hide One, Renumber, Goes;
    kept := [];
    for i := 0 to |loop|
      invariant kept == KeptLoop(One(n, v), loop[..i])
    {
      assert loop[..i + 1][..i] == loop[..i];
      OneIs(n, v, loop[i]);
      if loop[i] != v {
        kept := kept + [if loop[i] > v then loop[i] - 1 else loop[i]];
      }
    }
    assert loop[..|loop|] == loop;
  }

  method ReindexHoles(holes: seq<seq<int>>, v: int, ghost n: nat) returns (kept: seq<seq<int>>)
    requires 0 <= v < n
    ensures kept == KeptHoles(One(n, v), holes)
  {
    kept := [];
    for i := 0 to |holes|
      invariant kept == KeptHoles(One(n, v), holes[..i])
    {
      assert holes[..i + 1][..i] == holes[..i];
      var h := ReindexLoop(holes[i], v, n);
      if |h| >= 3 { kept := kept + [h]; }
    }
    assert holes[..|holes|] == holes;
  }

  method ReindexFloors(floors: seq<Floor>, v: int, ghost n: nat) returns (kept: seq<Floor>)
    requires 0 <= v < n
    ensures kept == KeptFloors(One(n, v), floors)
  {
    kept := [];
    for i := 0 to |floors|
      invariant kept == KeptFloors(One(n, v), floors[..i])
    {
      assert floors[..i + 1][..i] == floors[..i];
      var f := floors[i];
      var loop := ReindexLoop(f.vertices, v, n);
      if |loop| >= 3 {
        var holes := ReindexHoles(f.holes, v, n);
        kept := kept + [f.(vertices := loop, holes := holes)];
      }
    }
    assert floors[..|floors|] == floors;
  }

  // ---------------------------------------------------------------- renumbering

  lemma RenumberNext(gone: Gone, i: int)
    requires i >= 0
    ensures Renumber(gone, i + 1) == Renumber(gone, i) + (if Goes(gone, i) then 0 else 1)
  {
  }

  /** A vertex that stays keeps its place before all that came after it. */
  lemma {:induction false} RenumberRises(gone: Gone, i: int, j: int)
    requires i < j
    ensures Renumber(gone, i) <= Renumber(gone, j)
    ensures !Goes(gone, i) ==> Renumber(gone, i) < Renumber(gone, j)
    decreases j - i
  {
    if j > i + 1 {
      RenumberRises(gone, i, j - 1);
    }
    if j > 0 {
      RenumberNext(gone, j - 1);
    }
  }

  lemma {:induction false} KeptLength<V>(gone: Gone, vs: seq<V>)
    ensures |Kept(gone, vs)| == Renumber(gone, |vs|)
  {
    if vs != [] {
      KeptLength(gone, vs[..|vs| - 1]);
      RenumberNext(gone, |vs| - 1);
    }
  }

  /** A renumbered index finds the very vertex it was for. */
  lemma {:induction false} KeptAt<V>(gone: Gone, vs: seq<V>, i: int)
    requires 0 <= i < |vs| && !Goes(gone, i)
    ensures 0 <= Renumber(gone, i) < |Kept(gone, vs)|
    ensures Kept(gone, vs)[Renumber(gone, i)] == vs[i]
  {
    KeptLength(gone, vs);
    RenumberRises(gone, i, |vs|);
    KeptLength(gone, vs[..|vs| - 1]);
    if i < |vs| - 1 {
      KeptAt(gone, vs[..|vs| - 1], i);
    }
  }

  // ---------------------------------------------------------------- one deletion after another

  /** The vertex that is now number `v` had this number at first. */
  function Origin(gone: Gone, v: int, i: nat := 0): (o: int)
    ensures o >= i
    decreases |gone| - i
  {
    if i >= |gone| || (!gone[i] && Renumber(gone, i) == v) then i else Origin(gone, v, i + 1)
  }

  lemma {:induction false} OriginIs(gone: Gone, v: int, i: nat := 0)
    requires i <= |gone| && Renumber(gone, i) <= v < Renumber(gone, |gone|)
    ensures var o := Origin(gone, v, i); o < |gone| && !gone[o] && Renumber(gone, o) == v
    decreases |gone| - i
  {
    if i < |gone| && !(!gone[i] && Renumber(gone, i) == v) {
      RenumberNext(gone, i);
      OriginIs(gone, v, i + 1);
    }
  }

  lemma {:induction false} BelowMore(gone: Gone, o: nat, i: int)
    requires o < |gone| && !gone[o]
    ensures Below(gone[o := true], i) == Below(gone, i) + (if i > o then 1 else 0)
    decreases if i > 0 then i else 0
  {
    if i > 0 {
      BelowMore(gone, o, i - 1);
    }
  }

  /** Taking one more vertex out at once is taking it out by its new number afterwards. */
  lemma RenumberMore(gone: Gone, o: nat, n: nat, i: int)
    requires o < |gone| && !gone[o] && 0 <= Renumber(gone, o) < n
    ensures var v := Renumber(gone, o);
            !Goes(gone, i) ==>
              && (Goes(One(n, v), Renumber(gone, i)) <==> i == o)
              && Renumber(gone[o := true], i) == Renumber(One(n, v), Renumber(gone, i))
    ensures Goes(gone[o := true], i) <==> Goes(gone, i) || i == o
  {
    var v := Renumber(gone, o);
    BelowMore(gone, o, i);
    BelowOne(n, v, Renumber(gone, i));
    if i < o { RenumberRises(gone, i, o); }
    if o < i { RenumberRises(gone, o, i); }
  }

  lemma {:induction false} EdgesMore(gone: Gone, o: nat, n: nat, es: seq<Edge>)
    requires o < |gone| && !gone[o] && 0 <= Renumber(gone, o) < n
    ensures KeptEdges(One(n, Renumber(gone, o)), KeptEdges(gone, es)) == KeptEdges(gone[o := true], es)
  {
    if es != [] {
      hide One, Renumber, Goes;
      var init, e := es[..|es| - 1], es[|es| - 1];
      EdgesMore(gone, o, n, init);
      RenumberMore(gone, o, n, e.start);
      RenumberMore(gone, o, n, e.end);
      var now := KeptEdges(gone, es);
      if !Goes(gone, e.start) && !Goes(gone, e.end) {
        assert now[..|now| - 1] == KeptEdges(gone, init);
      } else {
        assert now == KeptEdges(gone, init);
      }
    }
  }

  lemma {:induction false} LoopMore(gone: Gone, o: nat, n: nat, loop: seq<int>)
    requires o < |gone| && !gone[o] && 0 <= Renumber(gone, o) < n
    ensures KeptLoop(One(n, Renumber(gone, o)), KeptLoop(gone, loop)) == KeptLoop(gone[o := true], loop)
  {
    if loop != [] {
      hide One, Renumber, Goes;
      var init, v := loop[..|loop| - 1], loop[|loop| - 1];
      LoopMore(gone, o, n, init);
      RenumberMore(gone, o, n, v);
      var now := KeptLoop(gone, loop);
      if !Goes(gone, v) {
        assert now[..|now| - 1] == KeptLoop(gone, init);
      } else {
        assert now == KeptLoop(gone, init);
      }
    }
  }

  lemma {:induction false} LoopShorter(gone: Gone, loop: seq<int>)
    ensures |KeptLoop(gone, loop)| <= |loop|
  {
    if loop != [] {
      LoopShorter(gone, loop[..|loop| - 1]);
    }
  }

  lemma {:induction false} HolesMore(gone: Gone, o: nat, n: nat, holes: seq<seq<int>>)
    requires o < |gone| && !gone[o] && 0 <= Renumber(gone, o) < n
    ensures KeptHoles(One(n, Renumber(gone, o)), KeptHoles(gone, holes)) == KeptHoles(gone[o := true], holes)
  {
    if holes != [] {
      hide One, Renumber, KeptLoop;
      var init, h := holes[..|holes| - 1], holes[|holes| - 1];
      HolesMore(gone, o, n, init);
      LoopMore(gone, o, n, h);
      LoopShorter(One(n, Renumber(gone, o)), KeptLoop(gone, h));
      var now := KeptHoles(gone, holes);
      if |KeptLoop(gone, h)| >= 3 {
        assert now[..|now| - 1] == KeptHoles(gone, init);
      } else {
        assert now == KeptHoles(gone, init);
      }
    }
  }

  lemma {:induction false} FloorsMore(gone: Gone, o: nat, n: nat, fs: seq<Floor>)
    requires o < |gone| && !gone[o] && 0 <= Renumber(gone, o) < n
    ensures KeptFloors(One(n, Renumber(gone, o)), KeptFloors(gone, fs)) == KeptFloors(gone[o := true], fs)
  {
    if fs != [] {
      hide One, Renumber, KeptLoop, KeptHoles;
      var init, f := fs[..|fs| - 1], fs[|fs| - 1];
      FloorsMore(gone, o, n, init);
      LoopMore(gone, o, n, f.vertices);
      HolesMore(gone, o, n, f.holes);
      LoopShorter(One(n, Renumber(gone, o)), KeptLoop(gone, f.vertices));
      var now := KeptFloors(gone, fs);
      if |KeptLoop(gone, f.vertices)| >= 3 {
        assert now[..|now| - 1] == KeptFloors(gone, init);
      } else {
        assert now == KeptFloors(gone, init);
      }
    }
  }

  lemma {:induction false} KeptMore<V>(gone: Gone, o: nat, n: nat, vs: seq<V>)
    requires o < |gone| && !gone[o] && 0 <= Renumber(gone, o) < n
    ensures Kept(One(n, Renumber(gone, o)), Kept(gone, vs)) == Kept(gone[o := true], vs)
  {
    if vs != [] {
      hide One, Renumber, Goes;
      var init := vs[..|vs| - 1];
      KeptMore(gone, o, n, init);
      RenumberMore(gone, o, n, |vs| - 1);
      KeptLength(gone, init);
      var now := Kept(gone, vs);
      if !Goes(gone, |vs| - 1) {
        assert now[..|now| - 1] == Kept(gone, init);
      } else {
        assert now == Kept(gone, init);
      }
    }
  }

  lemma PlanMore<V>(gone: Gone, o: nat, p: Plan<V>)
    requires o < |gone| == |p.vertices| && !gone[o]
    ensures var q := KeptPlan(gone, p);
            && 0 <= Renumber(gone, o) < |q.vertices|
            && KeptPlan(One(|q.vertices|, Renumber(gone, o)), q) == KeptPlan(gone[o := true], p)
  {
    KeptAt(gone, p.vertices, o);
    var n := |Kept(gone, p.vertices)|;
    KeptMore(gone, o, n, p.vertices);
    EdgesMore(gone, o, n, p.lanes);
    EdgesMore(gone, o, n, p.walls);
    EdgesMore(gone, o, n, p.doors);
    EdgesMore(gone, o, n, p.measurements);
    FloorsMore(gone, o, n, p.floors);
  }

  /** What `Delete` does, on values. */
  function Deleted<V>(p: Plan<V>, v: int): Plan<V> {
    if 0 <= v < |p.vertices| then KeptPlan(One(|p.vertices|, v), p) else p
  }

  function DeletedAll<V>(p: Plan<V>, ds: seq<int>): Plan<V> {
    if ds == [] then p else Deleted(DeletedAll(p, ds[..|ds| - 1]), ds[|ds| - 1])
  }

  /** The vertices a list of deletions takes out, by their first numbers; each deletion is by the
      number the vertex has when its turn comes. */
  function Taken(n: nat, ds: seq<int>): (gone: Gone)
    ensures |gone| == n
  {
    if ds == [] then None(n)
    else
      var gone, v := Taken(n, ds[..|ds| - 1]), ds[|ds| - 1];
      if 0 <= v < Renumber(gone, n) && Origin(gone, v) < n then gone[Origin(gone, v) := true] else gone
  }

  lemma {:induction false} NoneBelow(n: nat, i: int)
    ensures Below(None(n), i) == 0
    decreases if i > 0 then i else 0
  {
    if i > 0 {
      NoneBelow(n, i - 1);
    }
  }

  /** Deleting vertices one after another, each by its number at the time, is one pass that takes
      out all of them: the result depends on which vertices go, not on the order they go in. */
  lemma {:induction false} DeletedAtOnce<V>(p: Plan<V>, ds: seq<int>)
    ensures var gone := Taken(|p.vertices|, ds);
            DeletedAll(p, ds) == if gone == None(|p.vertices|) then p else KeptPlan(gone, p)
  {
    if ds != [] {
      var n, init, v := |p.vertices|, ds[..|ds| - 1], ds[|ds| - 1];
      DeletedAtOnce(p, init);
      var gone := Taken(n, init);
      var q := DeletedAll(p, init);
      NoneBelow(n, n);
      KeptLength(gone, p.vertices);
      assert |q.vertices| == Renumber(gone, n);
      if 0 <= v < Renumber(gone, n) {
        OriginIs(gone, v);
        var o := Origin(gone, v);
        assert Taken(n, ds)[o] && Taken(n, ds) == gone[o := true];
        if gone == None(n) {
          NoneBelow(n, o);
          assert gone[o := true] == One(n, v);
        } else {
          PlanMore(gone, o, p);
        }
      }
    }
  }

  // ---------------------------------------------------------------- what survives

  predicate EdgesIn(es: seq<Edge>, n: nat) {
    forall k :: 0 <= k < |es| ==> 0 <= es[k].start < n && 0 <= es[k].end < n
  }

  predicate LoopIn(loop: seq<int>, n: nat) {
    forall k :: 0 <= k < |loop| ==> 0 <= loop[k] < n
  }

  predicate FloorsIn(fs: seq<Floor>, n: nat) {
    forall k :: 0 <= k < |fs| ==> LoopIn(fs[k].vertices, n) && forall h :: h in fs[k].holes ==> LoopIn(h, n)
  }

  /** The edges that touch no vertex that goes, as they were. */
  function Untouched(gone: Gone, es: seq<Edge>): seq<Edge> {
    if es == [] then []
    else
      var e := es[|es| - 1];
      Untouched(gone, es[..|es| - 1]) + (if Goes(gone, e.start) || Goes(gone, e.end) then [] else [e])
  }

  /** The two edges join the same vertices of the two lists, and are otherwise alike. */
  predicate SameEdge<V(==)>(e: Edge, vs: seq<V>, e': Edge, vs': seq<V>) {
    && 0 <= e.start < |vs| && 0 <= e.end < |vs| && 0 <= e'.start < |vs'| && 0 <= e'.end < |vs'|
    && vs[e.start] == vs'[e'.start] && vs[e.end] == vs'[e'.end] && e.data == e'.data
  }

  /** Exactly the untouched edges survive, in order, and join the vertices they joined before. */
  lemma {:induction false} EdgesJoin<V>(gone: Gone, vs: seq<V>, es: seq<Edge>)
    requires EdgesIn(es, |vs|)
    ensures var kept, were := KeptEdges(gone, es), Untouched(gone, es);
            |kept| == |were| && forall k :: 0 <= k < |kept| ==> SameEdge(were[k], vs, kept[k], Kept(gone, vs))
  {
    if es != [] {
      var init, e := es[..|es| - 1], es[|es| - 1];
      EdgesJoin(gone, vs, init);
      if !Goes(gone, e.start) && !Goes(gone, e.end) {
        KeptAt(gone, vs, e.start);
        KeptAt(gone, vs, e.end);
      }
      hide SameEdge, Kept, Renumber, Goes;
    }
  }

  lemma {:induction false} LoopStaysIn<V>(gone: Gone, vs: seq<V>, loop: seq<int>)
    requires LoopIn(loop, |vs|)
    ensures LoopIn(KeptLoop(gone, loop), |Kept(gone, vs)|)
  {
    if loop != [] {
      LoopStaysIn(gone, vs, loop[..|loop| - 1]);
      if !Goes(gone, loop[|loop| - 1]) {
        KeptAt(gone, vs, loop[|loop| - 1]);
      }
    }
  }

  lemma {:induction false} HolesStayIn<V>(gone: Gone, vs: seq<V>, holes: seq<seq<int>>)
    requires forall h :: h in holes ==> LoopIn(h, |vs|)
    ensures forall h :: h in KeptHoles(gone, holes) ==> LoopIn(h, |Kept(gone, vs)|) && |h| >= 3
  {
    if holes != [] {
      hide LoopIn, Kept, KeptLoop;
      HolesStayIn(gone, vs, holes[..|holes| - 1]);
      LoopStaysIn(gone, vs, holes[|holes| - 1]);
    }
  }

  /** Every index of a floor that survives is that of a vertex, and no floor or hole of fewer than
      three points survives. */
  lemma {:induction false} FloorsStayIn<V>(gone: Gone, vs: seq<V>, fs: seq<Floor>)
    requires FloorsIn(fs, |vs|)
    ensures FloorsIn(KeptFloors(gone, fs), |Kept(gone, vs)|)
    ensures forall f :: f in KeptFloors(gone, fs) ==> |f.vertices| >= 3 && forall h :: h in f.holes ==> |h| >= 3
  {
    if fs != [] {
      hide LoopIn, Kept, KeptLoop, KeptHoles;
      var f := fs[|fs| - 1];
      assert f == fs[|fs| - 1];
      FloorsStayIn(gone, vs, fs[..|fs| - 1]);
      LoopStaysIn(gone, vs, f.vertices);
      HolesStayIn(gone, vs, f.holes);
    }
  }

  // ---------------------------------------------------------------- floors and holes survive

  /** The points of a loop that do not go. */
  function Remaining(gone: Gone, loop: seq<int>): seq<int> {
    if loop == [] then []
    else
      var v := loop[|loop| - 1];
      Remaining(gone, loop[..|loop| - 1]) + (if Goes(gone, v) then [] else [v])
  }

  /** The two loops run through the same vertices of the two lists, in the same order. */
  predicate SameLoop<V(==)>(loop: seq<int>, vs: seq<V>, loop': seq<int>, vs': seq<V>) {
    && |loop| == |loop'| && LoopIn(loop, |vs|) && LoopIn(loop', |vs'|)
    && forall k :: 0 <= k < |loop| ==> vs[loop[k]] == vs'[loop'[k]]
  }

  lemma {:induction false} LoopRuns<V>(gone: Gone, vs: seq<V>, loop: seq<int>)
    requires LoopIn(loop, |vs|)
    ensures SameLoop(Remaining(gone, loop), vs, KeptLoop(gone, loop), Kept(gone, vs))
  {
    if loop != [] {
      hide Goes, Renumber, Kept;
      var v := loop[|loop| - 1];
      LoopRuns(gone, vs, loop[..|loop| - 1]);
      if !Goes(gone, v) {
        KeptAt(gone, vs, v);
      }
    }
  }

  /** The holes that keep three points, as they were. */
  function RemainingHoles(gone: Gone, holes: seq<seq<int>>): seq<seq<int>> {
    if holes == [] then []
    else
      var h := holes[|holes| - 1];
      RemainingHoles(gone, holes[..|holes| - 1]) + (if |Remaining(gone, h)| >= 3 then [h] else [])
  }

  /** Each of these holes runs through the vertices it ran through, without those that go. */
  predicate SameHoles<V(==)>(gone: Gone, were: seq<seq<int>>, vs: seq<V>, are: seq<seq<int>>, vs': seq<V>) {
    |were| == |are| && forall k :: 0 <= k < |were| ==> SameLoop(Remaining(gone, were[k]), vs, are[k], vs')
  }

  lemma {:induction false} HolesRun<V>(gone: Gone, vs: seq<V>, holes: seq<seq<int>>)
    requires forall h :: h in holes ==> LoopIn(h, |vs|)
    ensures SameHoles(gone, RemainingHoles(gone, holes), vs, KeptHoles(gone, holes), Kept(gone, vs))
  {
    if holes != [] {
      var h := holes[|holes| - 1];
      assert h in holes;
      LoopRuns(gone, vs, h);
      LoopLengths(Remaining(gone, h), vs, KeptLoop(gone, h), Kept(gone, vs));
      hide SameLoop, LoopIn, Kept, KeptLoop, Remaining;
      HolesRun(gone, vs, holes[..|holes| - 1]);
    }
  }

  lemma LoopLengths<V>(loop: seq<int>, vs: seq<V>, loop': seq<int>, vs': seq<V>)
    requires SameLoop(loop, vs, loop', vs')
    ensures |loop| == |loop'|
  {
  }

  /** The floors whose outline keeps three points, as they were. */
  function RemainingFloors(gone: Gone, fs: seq<Floor>): seq<Floor> {
    if fs == [] then []
    else
      var f := fs[|fs| - 1];
      RemainingFloors(gone, fs[..|fs| - 1]) + (if |Remaining(gone, f.vertices)| >= 3 then [f] else [])
  }

  /** The floor's outline and holes run through the vertices they ran through, without those that go;
      exactly the holes that keep three points are left; the rest of the floor is as it was. */
  predicate SameFloor<V(==)>(gone: Gone, f: Floor, vs: seq<V>, f': Floor, vs': seq<V>) {
    && SameLoop(Remaining(gone, f.vertices), vs, f'.vertices, vs')
    && SameHoles(gone, RemainingHoles(gone, f.holes), vs, f'.holes, vs') && f.data == f'.data
  }

  lemma FloorRuns<V>(gone: Gone, vs: seq<V>, f: Floor)
    requires LoopIn(f.vertices, |vs|) && forall h :: h in f.holes ==> LoopIn(h, |vs|)
    ensures SameFloor(gone, f, vs, f.(vertices := KeptLoop(gone, f.vertices), holes := KeptHoles(gone, f.holes)), Kept(gone, vs))
    ensures |Remaining(gone, f.vertices)| == |KeptLoop(gone, f.vertices)|
  {
    LoopRuns(gone, vs, f.vertices);
    HolesRun(gone, vs, f.holes);
    hide SameHoles, LoopIn, Kept, KeptLoop, Remaining, KeptHoles, RemainingHoles;
  }

  /** Exactly the floors whose outline keeps three points survive, in order, and run where they ran. */
  lemma {:induction false} FloorsRun<V>(gone: Gone, vs: seq<V>, fs: seq<Floor>)
    requires FloorsIn(fs, |vs|)
    ensures var kept, were := KeptFloors(gone, fs), RemainingFloors(gone, fs);
            |kept| == |were| && forall k :: 0 <= k < |kept| ==> SameFloor(gone, were[k], vs, kept[k], Kept(gone, vs))
  {
    if fs != [] {
      var f := fs[|fs| - 1];
      FloorRuns(gone, vs, f);
      hide SameFloor, LoopIn, Kept, KeptLoop, KeptHoles, Remaining;
      FloorsRun(gone, vs, fs[..|fs| - 1]);
    }
  }

  /** The edges of a list that survive, and where they run. */
  ghost predicate EdgesSurvive<V>(gone: Gone, es: seq<Edge>, vs: seq<V>, es': seq<Edge>, vs': seq<V>) {
    var were := Untouched(gone, es);
    |es'| == |were| && forall k :: 0 <= k < |es'| ==> SameEdge(were[k], vs, es'[k], vs')
  }

  ghost predicate FloorsSurvive<V>(gone: Gone, fs: seq<Floor>, vs: seq<V>, fs': seq<Floor>, vs': seq<V>) {
    var were := RemainingFloors(gone, fs);
    |fs'| == |were| && forall k :: 0 <= k < |fs'| ==> SameFloor(gone, were[k], vs, fs'[k], vs')
  }

  ghost predicate PlanIn<V>(p: Plan<V>) {
    var n := |p.vertices|;
    EdgesIn(p.lanes, n) && EdgesIn(p.walls, n) && EdgesIn(p.doors, n) && EdgesIn(p.measurements, n) && FloorsIn(p.floors, n)
  }

  /** Of a whole plan: every vertex that stays is found, in order, and lanes, walls, doors, measurements, floors
      and holes that survive run where they ran. */
  lemma PlanSurvives<V>(gone: Gone, p: Plan<V>)
    requires PlanIn(p)
    ensures var q := KeptPlan(gone, p);
            && |q.vertices| == Renumber(gone, |p.vertices|)
            && (forall i :: 0 <= i < |p.vertices| && !Goes(gone, i) ==>
                  0 <= Renumber(gone, i) < |q.vertices| && q.vertices[Renumber(gone, i)] == p.vertices[i])
            && EdgesSurvive(gone, p.lanes, p.vertices, q.lanes, q.vertices)
            && EdgesSurvive(gone, p.walls, p.vertices, q.walls, q.vertices)
            && EdgesSurvive(gone, p.doors, p.vertices, q.doors, q.vertices)
            && EdgesSurvive(gone, p.measurements, p.vertices, q.measurements, q.vertices)
            && FloorsSurvive(gone, p.floors, p.vertices, q.floors, q.vertices)
  {
    hide Goes, Renumber, Kept, KeptEdges, KeptFloors, SameEdge, SameFloor, Untouched, RemainingFloors, EdgesIn, FloorsIn;
    KeptLength(gone, p.vertices);
    forall i | 0 <= i < |p.vertices| && !Goes(gone, i)
      ensures 0 <= Renumber(gone, i) < |Kept(gone, p.vertices)| && Kept(gone, p.vertices)[Renumber(gone, i)] == p.vertices[i]
    {
      KeptAt(gone, p.vertices, i);
    }
    EdgesJoin(gone, p.vertices, p.lanes);
    EdgesJoin(gone, p.vertices, p.walls);
    EdgesJoin(gone, p.vertices, p.doors);
    EdgesJoin(gone, p.vertices, p.measurements);
    FloorsRun(gone, p.vertices, p.floors);
  }
}
