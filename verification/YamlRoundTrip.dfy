/** Printing and parsing a building undo each other, on trees. */
module YamlRoundTrip {
  import opened YamlTree
  import opened YamlBuilding

  // ---------------------------------------------------------------- parameters

  ghost predicate Rising(sc: Scalars, ps: Params) {
    forall i, j :: 0 <= i < j < |ps| ==> sc.before(ps[i].0, ps[j].0)
  }

  function ParamPairs(sc: Scalars, ps: Params): (r: Entries)
    ensures |r| == |ps|
  {
    seq(|ps|, i requires 0 <= i < |ps| => (ps[i].0, ParamNode(sc, ps[i].1)))
  }

  lemma {:induction false} PrintsParams(sc: Scalars, ps: Params)
    requires Lawful(sc) && Rising(sc, ps)
    ensures ParamEntries(sc, ps) == ParamPairs(sc, ps)
  {
    if ps != [] {
      var init, last := ps[..|ps| - 1], ps[|ps| - 1];
      PrintsParams(sc, init);
      var es := ParamPairs(sc, init);
      hide ParamNode;
      forall i | 0 <= i < |es| ensures es[i].0 != last.0 {
        assert sc.before(ps[i].0, last.0);
      }
      SetNew(es, last.0, ParamNode(sc, last.1));
      assert ParamPairs(sc, ps) == es + [(last.0, ParamNode(sc, last.1))];
    }
  }

  lemma {:induction false} InsertLast(sc: Scalars, ps: Params, k: Key, v: Param)
    requires Lawful(sc) && forall i :: 0 <= i < |ps| ==> sc.before(ps[i].0, k)
    ensures Insert(sc, ps, k, v) == ps + [(k, v)]
    decreases |ps|
  {
    if ps != [] {
      assert sc.before(ps[0].0, k);
      InsertLast(sc, ps[1..], k, v);
      assert ps == [ps[0]] + ps[1..];
    }
  }

  lemma ParamBack(sc: Scalars, p: Param)
    requires Lawful(sc)
    ensures ParamOf(sc, ParamNode(sc, p)) == Ok(p)
  {
    assert sc.readInt(sc.showInt(1)) == Some(1) && sc.readInt(sc.showInt(2)) == Some(2);
    assert sc.readInt(sc.showInt(3)) == Some(3) && sc.readInt(sc.showInt(4)) == Some(4);
  }

  lemma {:induction false} ParamsBack(sc: Scalars, ps: Params)
    requires Lawful(sc) && Rising(sc, ps)
    ensures ParamsOf(sc, ParamPairs(sc, ps)) == Ok(ps)
  {
    if ps != [] {
      var init, last := ps[..|ps| - 1], ps[|ps| - 1];
      ParamsBack(sc, init);
      ParamBack(sc, last.1);
      hide ParamNode, ParamOf;
      assert ParamPairs(sc, ps)[..|ps| - 1] == ParamPairs(sc, init);
      forall i | 0 <= i < |init| ensures sc.before(init[i].0, last.0) {
        assert init[i] == ps[i];
      }
      InsertLast(sc, init, last.0, last.1);
      assert ps == init + [last];
    }
  }

  ghost predicate Above(sc: Scalars, ps: Params, low: Key) {
    forall i :: 0 <= i < |ps| ==> sc.before(low, ps[i].0)
  }

  lemma {:induction false} InsertAbove(sc: Scalars, ps: Params, k: Key, v: Param, low: Key)
    requires Above(sc, ps, low) && sc.before(low, k)
    ensures Above(sc, Insert(sc, ps, k, v), low)
    decreases |ps|
  {
    if ps != [] && ps[0].0 != k && !sc.before(k, ps[0].0) {
      assert forall i :: 0 <= i < |ps| - 1 ==> ps[1..][i] == ps[i + 1];
      InsertAbove(sc, ps[1..], k, v, low);
    }
  }

  lemma RisingHead(sc: Scalars, ps: Params)
    requires ps != []
    ensures Rising(sc, ps) <==> Rising(sc, ps[1..]) && Above(sc, ps[1..], ps[0].0)
  {
    var rest := ps[1..];
    assert forall i :: 0 <= i < |rest| ==> rest[i] == ps[i + 1];
    if Rising(sc, rest) && Above(sc, rest, ps[0].0) {
      forall i, j | 0 <= i < j < |ps| ensures sc.before(ps[i].0, ps[j].0) {
        assert ps[j] == rest[j - 1];
        if i > 0 { assert ps[i] == rest[i - 1]; }
      }
    }
  }

  /** The keys of an ordered map stay in order. */
  lemma {:induction false} InsertRises(sc: Scalars, ps: Params, k: Key, v: Param)
    requires Lawful(sc) && Rising(sc, ps)
    ensures Rising(sc, Insert(sc, ps, k, v))
    decreases |ps|
  {
    if ps != [] {
      var r, rest := Insert(sc, ps, k, v), ps[1..];
      RisingHead(sc, ps);
      RisingHead(sc, r);
      if ps[0].0 == k {
        assert r[1..] == rest;
      } else if sc.before(k, ps[0].0) {
        assert r[1..] == ps;
        forall i | 0 <= i < |ps| ensures sc.before(k, ps[i].0) {
          if i > 0 { assert rest[i - 1] == ps[i]; }
        }
      } else {
        assert r[1..] == Insert(sc, rest, k, v);
        hide Rising, Above;
        InsertRises(sc, rest, k, v);
        InsertAbove(sc, rest, k, v, ps[0].0);
      }
    }
  }

  lemma {:induction false} ParamsRise(sc: Scalars, es: Entries)
    requires Lawful(sc) && ParamsOf(sc, es).Ok?
    ensures Rising(sc, ParamsOf(sc, es).value)
  {
    if es != [] {
      ParamsRise(sc, es[..|es| - 1]);
      hide Insert, ParamOf, Lawful, Rising;
      var last := es[|es| - 1];
      InsertRises(sc, ParamsOf(sc, es[..|es| - 1]).value, last.0, ParamOf(sc, last.1).value);
    }
  }

  predicate NoBlank(ps: Params) {
    forall i :: 0 <= i < |ps| ==> !Blank(ps[i].1)
  }

  lemma {:induction false} TellingFrom(ps: Params)
    ensures NoBlank(Telling(ps)) && forall p :: p in Telling(ps) ==> p in ps
  {
    if ps != [] {
      hide Blank;
      TellingFrom(ps[..|ps| - 1]);
    }
  }

  lemma {:induction false} TellingAll(ps: Params)
    requires NoBlank(ps)
    ensures Telling(ps) == ps
  {
    if ps != [] {
      hide Blank;
      TellingAll(ps[..|ps| - 1]);
      assert ps == ps[..|ps| - 1] + [ps[|ps| - 1]];
    }
  }

  lemma RisingSplit(sc: Scalars, ps: Params)
    requires Rising(sc, ps) && ps != []
    ensures Rising(sc, ps[..|ps| - 1]) && forall p :: p in ps[..|ps| - 1] ==> sc.before(p.0, ps[|ps| - 1].0)
  {
    var init := ps[..|ps| - 1];
    forall p | p in init ensures sc.before(p.0, ps[|ps| - 1].0) {
      var i :| 0 <= i < |init| && init[i] == p;
      assert sc.before(ps[i].0, ps[|ps| - 1].0);
    }
  }

  lemma RisingMore(sc: Scalars, ps: Params, last: (Key, Param))
    requires Rising(sc, ps) && forall p :: p in ps ==> sc.before(p.0, last.0)
    ensures Rising(sc, ps + [last])
  {
    var all := ps + [last];
    forall i, j | 0 <= i < j < |all| ensures sc.before(all[i].0, all[j].0) {
      if j == |ps| { assert ps[i] in ps; }
    }
  }

  lemma {:induction false} TellingRises(sc: Scalars, ps: Params)
    requires Rising(sc, ps)
    ensures Rising(sc, Telling(ps))
  {
    if ps != [] {
      var init, last := ps[..|ps| - 1], ps[|ps| - 1];
      RisingSplit(sc, ps);
      TellingRises(sc, init);
      TellingFrom(init);
      hide Rising, Blank, NoBlank;
      if !Blank(last.1) {
        RisingMore(sc, Telling(init), last);
      } else {
        assert Telling(init) + [] == Telling(init);
      }
    }
  }

  // ---------------------------------------------------------------- vertices, edges, fiducials

  ghost predicate NormalVertex(sc: Scalars, v: Vertex) {
    Rising(sc, v.params) && NoBlank(v.params)
  }

  lemma VertexBack(sc: Scalars, v: Vertex)
    requires Lawful(sc) && NormalVertex(sc, v)
    ensures VertexOf(sc, VertexNode(sc, v)) == Ok(v)
  {
    TellingAll(v.params);
    PrintsParams(sc, v.params);
    ParamsBack(sc, v.params);
    hide ParamsOf, ParamPairs, ParamEntries, Telling, Rising, NoBlank;
  }

  lemma EdgeBack(sc: Scalars, e: Edge)
    requires Lawful(sc) && Rising(sc, e.params)
    ensures EdgeOf(sc, EdgeNode(sc, e)) == Ok(e)
  {
    PrintsParams(sc, e.params);
    ParamsBack(sc, e.params);
    hide ParamsOf, ParamPairs, ParamEntries, Rising;
  }

  lemma FiducialBack(sc: Scalars, f: Fiducial)
    requires Lawful(sc)
    ensures FiducialOf(sc, FiducialNode(sc, f)) == f
  {
  }

  // ---------------------------------------------------------------- floors

  lemma IntsBack(sc: Scalars, ints: seq<Int32>)
    requires Lawful(sc)
    ensures IntsOf(sc, IntNodes(sc, ints)) == ints
  {
  }

  lemma LoopsBack(sc: Scalars, loops: seq<seq<Int32>>)
    requires Lawful(sc)
    ensures LoopsOf(sc, LoopNodes(sc, loops)) == loops && Typed(Seq(LoopNodes(sc, loops)))
  {
    forall i | 0 <= i < |loops| ensures LoopsOf(sc, LoopNodes(sc, loops))[i] == loops[i] {
      IntsBack(sc, loops[i]);
    }
    hide IntsOf;
  }

  /** A passthrough as parsing leaves it: a mapping without repeats and without these keys. */
  ghost predicate Passes(passthrough: Node, known: set<Key>) {
    passthrough.Map? && Unique(passthrough.entries) && NoneOf(passthrough.entries, known)
  }

  lemma PassesSpliced(passthrough: Node, known: set<Key>)
    requires Passes(passthrough, known)
    ensures Spliced(passthrough) == passthrough.entries && Unknown(passthrough.entries, known) == passthrough.entries
    ensures forall k :: k in known ==> Get(passthrough.entries, k) == None
  {
    SetAllSelf(passthrough.entries);
    UnknownSelf(passthrough.entries, known);
    forall k | k in known ensures Get(passthrough.entries, k) == None {
      GetLacks(passthrough.entries, k);
    }
  }

  lemma GetSetIf(es: Entries, c: bool, k: Key, v: Node, j: Key)
    ensures Get(SetIf(es, c, k, v), j) == if c && j == k then Some(v) else Get(es, j)
  {
    GetSet(es, k, v, j);
  }

  lemma UnknownSetIf(es: Entries, known: set<Key>, c: bool, k: Key, v: Node)
    requires k in known
    ensures Unknown(SetIf(es, c, k, v), known) == Unknown(es, known)
  {
    UnknownSet(es, known, k, v);
  }

  /** A floor as parsing leaves it. */
  ghost predicate PlainFloor(sc: Scalars, f: Floor) {
    Rising(sc, f.params) && Passes(f.passthrough, if f.holes != [] then HOLED_KEYS else FLOOR_KEYS)
  }

  /** Known keys are typed: holes are in the model, or what stands in the passthrough is none. */
  ghost predicate NormalFloor(sc: Scalars, f: Floor) {
    PlainFloor(sc, f) && !HolesTyped(f.passthrough.entries)
  }

  /** What parsing makes of a printed floor: typed holes in the passthrough become its own. */
  function FloorAgain(sc: Scalars, f: Floor): Floor {
    if f.passthrough.Map? && HolesTyped(f.passthrough.entries) then
      var es := f.passthrough.entries;
      f.(holes := LoopsOf(sc, ItemsAt(es, Holes)), passthrough := Map(Unknown(es, HOLED_KEYS)))
    else f
  }

  /** What the printed floor has under each key. */
  lemma FloorGets(sc: Scalars, f: Floor)
    requires Lawful(sc) && PlainFloor(sc, f)
    ensures var es := FloorEntries(sc, f);
            && Get(es, Parameters) == Some(Map(ParamEntries(sc, f.params)))
            && Get(es, Vertices) == Some(Seq(IntNodes(sc, f.vertices)))
            && Get(es, Holes) == if f.holes != [] then Some(Seq(LoopNodes(sc, f.holes))) else Get(f.passthrough.entries, Holes)
  {
    PassesSpliced(f.passthrough, if f.holes != [] then HOLED_KEYS else FLOOR_KEYS);
    var e0 := Spliced(f.passthrough);
    var p, v, h := Map(ParamEntries(sc, f.params)), Seq(IntNodes(sc, f.vertices)), Seq(LoopNodes(sc, f.holes));
    var e1 := Set(e0, Parameters, p);
    var e2 := Set(e1, Vertices, v);
    hide Get, Set, ParamEntries, IntNodes, LoopNodes;
    GetSet(e0, Parameters, p, Parameters);
    GetSet(e0, Parameters, p, Holes);
    GetSet(e1, Vertices, v, Parameters);
    GetSet(e1, Vertices, v, Vertices);
    GetSet(e1, Vertices, v, Holes);
    GetSetIf(e2, f.holes != [], Holes, h, Parameters);
    GetSetIf(e2, f.holes != [], Holes, h, Vertices);
    GetSetIf(e2, f.holes != [], Holes, h, Holes);
  }

  lemma FloorUnknown(sc: Scalars, f: Floor, known: set<Key>)
    requires Lawful(sc) && PlainFloor(sc, f)
    requires known == HOLED_KEYS || (known == FLOOR_KEYS && f.holes == [])
    ensures Unknown(FloorEntries(sc, f), known) == Unknown(f.passthrough.entries, known)
  {
    PassesSpliced(f.passthrough, if f.holes != [] then HOLED_KEYS else FLOOR_KEYS);
    var e0 := Spliced(f.passthrough);
    var e1 := Set(e0, Parameters, Map(ParamEntries(sc, f.params)));
    var e2 := Set(e1, Vertices, Seq(IntNodes(sc, f.vertices)));
    UnknownSet(e0, known, Parameters, Map(ParamEntries(sc, f.params)));
    UnknownSet(e1, known, Vertices, Seq(IntNodes(sc, f.vertices)));
    if f.holes != [] {
      UnknownSet(e2, known, Holes, Seq(LoopNodes(sc, f.holes)));
    }
    hide Unknown, Set, Spliced, ParamEntries, IntNodes, LoopNodes;
  }

  /** Parsing a printed floor gives the floor, but for holes that were only passed through. */
  lemma FloorReread(sc: Scalars, f: Floor)
    requires Lawful(sc) && PlainFloor(sc, f)
    ensures FloorOf(sc, FloorNode(sc, f)) == Ok(FloorAgain(sc, f))
  {
    var es, ps := FloorEntries(sc, f), f.passthrough.entries;
    FloorGets(sc, f);
    FloorUnknown(sc, f, if f.holes != [] || HolesTyped(ps) then HOLED_KEYS else FLOOR_KEYS);
    PassesSpliced(f.passthrough, if f.holes != [] then HOLED_KEYS else FLOOR_KEYS);
    IntsBack(sc, f.vertices);
    LoopsBack(sc, f.holes);
    PrintsParams(sc, f.params);
    ParamsBack(sc, f.params);
    hide Get, FloorEntries, Unknown, Typed, IntsOf, IntNodes, LoopsOf, LoopNodes, ParamsOf, ParamEntries, ParamPairs, Rising, Passes;
  }

  lemma FloorBack(sc: Scalars, f: Floor)
    requires Lawful(sc) && NormalFloor(sc, f)
    ensures FloorOf(sc, FloorNode(sc, f)) == Ok(f)
  {
    FloorReread(sc, f);
  }

  // ---------------------------------------------------------------- layers

  ghost predicate NormalLayer(l: Layer) {
    Passes(l.passthrough, LAYER_KEYS)
  }

  lemma LayerGets(sc: Scalars, l: Layer)
    requires NormalLayer(l)
    ensures var es := LayerEntries(sc, l);
            && Get(es, Filename) == Some(Scalar(l.filename)) && Get(es, Visible) == Some(BoolNode(sc, l.visible))
            && Get(es, Color) == Some(ColourNode(sc, l.color)) && Get(es, Transform) == Some(PlaceNode(sc, l.place))
            && Unknown(es, LAYER_KEYS) == l.passthrough.entries
  {
    PassesSpliced(l.passthrough, LAYER_KEYS);
    var f, v, c, t := Scalar(l.filename), BoolNode(sc, l.visible), ColourNode(sc, l.color), PlaceNode(sc, l.place);
    var e0 := Spliced(l.passthrough);
    var e1 := Set(e0, Filename, f);
    var e2 := Set(e1, Visible, v);
    var e3 := Set(e2, Color, c);
    hide Get, Set, Unknown, Spliced, ColourNode, PlaceNode, BoolNode;
    GetSet(e0, Filename, f, Filename);
    GetSet(e1, Visible, v, Filename);
    GetSet(e1, Visible, v, Visible);
    GetSet(e2, Color, c, Filename);
    GetSet(e2, Color, c, Visible);
    GetSet(e2, Color, c, Color);
    GetSet(e3, Transform, t, Filename);
    GetSet(e3, Transform, t, Visible);
    GetSet(e3, Transform, t, Color);
    GetSet(e3, Transform, t, Transform);
    UnknownSet(e0, LAYER_KEYS, Filename, f);
    UnknownSet(e1, LAYER_KEYS, Visible, v);
    UnknownSet(e2, LAYER_KEYS, Color, c);
    UnknownSet(e3, LAYER_KEYS, Transform, t);
  }

  lemma PlaceBack(sc: Scalars, p: Place)
    requires Lawful(sc)
    ensures var es := PlaceNode(sc, p).entries;
            DoubleAt(sc, es, Scale, ONE) == p.scale && DoubleAt(sc, es, Yaw, ZERO) == p.yaw
            && DoubleAt(sc, es, TranslationX, ZERO) == p.x && DoubleAt(sc, es, TranslationY, ZERO) == p.y
  {
    var es := PlaceNode(sc, p).entries;
    assert es[1..][0] == es[1] && es[1..][1..] == es[2..] && es[2..][1..] == es[3..];
    GetStep(es, Scale);
    GetStep(es, Yaw);
    GetStep(es, TranslationX);
    GetStep(es, TranslationY);
    GetStep(es[1..], Yaw);
    GetStep(es[1..], TranslationX);
    GetStep(es[1..], TranslationY);
    GetStep(es[2..], TranslationX);
    GetStep(es[2..], TranslationY);
    GetStep(es[3..], TranslationY);
    hide Get;
  }

  lemma ColourBack(sc: Scalars, c: Colour, es: Entries)
    requires Lawful(sc) && Get(es, Color) == Some(ColourNode(sc, c))
    ensures ColourOf(sc, es) == c
  {
    hide Get;
  }

  lemma PlaceAt(sc: Scalars, p: Place, es: Entries)
    requires Lawful(sc) && Get(es, Transform) == Some(PlaceNode(sc, p))
    ensures PlaceOf(sc, es) == p
  {
    PlaceBack(sc, p);
    hide Get, DoubleAt;
  }

  lemma TextBack(es: Entries, k: Key, text: string)
    requires Get(es, k) == Some(Scalar(text))
    ensures TextAt(es, k) == text
  {
  }

  lemma BoolBack(sc: Scalars, b: bool)
    requires Lawful(sc)
    ensures AsBool(sc, BoolNode(sc, b)) == Some(b)
  {
  }

  lemma LayerBack(sc: Scalars, l: Layer)
    requires Lawful(sc) && NormalLayer(l)
    ensures LayerOf(sc, l.name, LayerNode(sc, l)) == l
  {
    var es := LayerEntries(sc, l);
    LayerGets(sc, l);
    BoolBack(sc, l.visible);
    TextBack(es, Filename, l.filename);
    hide Get, LayerEntries, Unknown, ColourOf, PlaceOf, ColourNode, PlaceNode, BoolNode, AsBool, Lawful, TextAt;
    ColourBack(sc, l.color, es);
    PlaceAt(sc, l.place, es);
  }

  // ---------------------------------------------------------------- lists

  lemma {:induction false} VerticesBack(sc: Scalars, vs: seq<Vertex>)
    requires Lawful(sc) && forall v :: v in vs ==> NormalVertex(sc, v)
    ensures VerticesOf(sc, VertexNodes(sc, vs)) == Ok(vs)
  {
    if vs != [] {
      hide VertexOf, VertexNode, NormalVertex, Lawful;
      var init, last := vs[..|vs| - 1], vs[|vs| - 1];
      assert VertexNodes(sc, vs)[..|vs| - 1] == VertexNodes(sc, init);
      VerticesBack(sc, init);
      VertexBack(sc, last);
      assert vs == init + [last];
    }
  }

  ghost predicate NormalEdges(sc: Scalars, es: seq<Edge>) {
    forall e :: e in es ==> Rising(sc, e.params)
  }

  lemma {:induction false} EdgesBack(sc: Scalars, es: seq<Edge>)
    requires Lawful(sc) && NormalEdges(sc, es)
    ensures EdgesOf(sc, EdgeNodes(sc, es)) == Ok(es)
  {
    if es != [] {
      hide EdgeOf, EdgeNode, Rising, Lawful;
      var init, last := es[..|es| - 1], es[|es| - 1];
      assert EdgeNodes(sc, es)[..|es| - 1] == EdgeNodes(sc, init);
      EdgesBack(sc, init);
      EdgeBack(sc, last);
      assert es == init + [last];
    }
  }

  ghost predicate NormalFloors(sc: Scalars, fs: seq<Floor>) {
    forall f :: f in fs ==> NormalFloor(sc, f)
  }

  ghost predicate PlainFloors(sc: Scalars, fs: seq<Floor>) {
    forall f :: f in fs ==> PlainFloor(sc, f)
  }

  function FloorsAgain(sc: Scalars, fs: seq<Floor>): (r: seq<Floor>)
    ensures |r| == |fs|
  {
    seq(|fs|, i requires 0 <= i < |fs| => FloorAgain(sc, fs[i]))
  }

  lemma FloorsSame(sc: Scalars, fs: seq<Floor>)
    requires NormalFloors(sc, fs)
    ensures PlainFloors(sc, fs) && FloorsAgain(sc, fs) == fs
  {
    forall i | 0 <= i < |fs| ensures FloorAgain(sc, fs[i]) == fs[i] {
      assert NormalFloor(sc, fs[i]);
    }
    hide FloorAgain, HolesTyped;
  }

  lemma FloorsSplit(sc: Scalars, fs: seq<Floor>)
    requires fs != [] && PlainFloors(sc, fs)
    ensures var init, last := fs[..|fs| - 1], fs[|fs| - 1];
            && PlainFloors(sc, init) && PlainFloor(sc, last) && fs == init + [last]
            && FloorNodes(sc, fs) == FloorNodes(sc, init) + [FloorNode(sc, last)]
            && FloorsAgain(sc, fs) == FloorsAgain(sc, init) + [FloorAgain(sc, last)]
  {
    hide PlainFloor, FloorNode, FloorAgain;
  }

  lemma {:induction false} FloorsReread(sc: Scalars, fs: seq<Floor>)
    requires Lawful(sc) && PlainFloors(sc, fs)
    ensures FloorsOf(sc, FloorNodes(sc, fs)) == Ok(FloorsAgain(sc, fs))
  {
    if fs != [] {
      FloorsSplit(sc, fs);
      hide FloorOf, FloorNode, PlainFloors, Lawful, FloorNodes, FloorAgain, FloorsAgain;
      var init, last := fs[..|fs| - 1], fs[|fs| - 1];
      FloorsReread(sc, init);
      FloorReread(sc, last);
      var ns := FloorNodes(sc, fs);
      assert ns[..|ns| - 1] == FloorNodes(sc, init);
    }
  }

  lemma FiducialsBack(sc: Scalars, fs: seq<Fiducial>)
    requires Lawful(sc)
    ensures FiducialsOf(sc, FiducialNodes(sc, fs)) == fs
  {
    forall i | 0 <= i < |fs| ensures FiducialsOf(sc, FiducialNodes(sc, fs))[i] == fs[i] {
      FiducialBack(sc, fs[i]);
    }
  }

  ghost predicate DistinctLayers(ls: seq<Layer>) {
    forall i, j :: 0 <= i < j < |ls| ==> ls[i].name != ls[j].name
  }

  lemma LayersBack(sc: Scalars, ls: seq<Layer>)
    requires Lawful(sc) && DistinctLayers(ls) && forall l :: l in ls ==> NormalLayer(l)
    ensures SetAll(LayerPairs(sc, ls)) == LayerPairs(sc, ls) && LayersOf(sc, LayerPairs(sc, ls)) == ls
  {
    hide LayerOf, LayerNode, NormalLayer, Lawful;
    SetAllSelf(LayerPairs(sc, ls));
    forall i | 0 <= i < |ls| ensures LayersOf(sc, LayerPairs(sc, ls))[i] == ls[i] {
      assert ls[i] in ls;
      LayerBack(sc, ls[i]);
    }
  }

  // ---------------------------------------------------------------- levels

  /** A level as parsing and printing leave it. */
  ghost predicate PlainLevel(sc: Scalars, l: Level) {
    && (forall v :: v in l.vertices ==> NormalVertex(sc, v))
    && NormalEdges(sc, l.lanes) && NormalEdges(sc, l.walls) && NormalEdges(sc, l.doors) && NormalEdges(sc, l.measurements)
    && PlainFloors(sc, l.floors)
    && DistinctLayers(l.layers) && (forall y :: y in l.layers ==> NormalLayer(y))
    && Passes(l.passthrough, LEVEL_KEYS)
  }

  ghost predicate NormalLevel(sc: Scalars, l: Level) {
    PlainLevel(sc, l) && NormalFloors(sc, l.floors)
  }

  function LevelAgain(sc: Scalars, l: Level): Level {
    l.(floors := FloorsAgain(sc, l.floors))
  }

  /** An assignment made under a condition: to a key, of a value. */
  datatype Put = Put(c: bool, k: Key, v: Node)

  function Puts(es: Entries, ps: seq<Put>): Entries {
    if ps == [] then es
    else SetIf(Puts(es, ps[..|ps| - 1]), ps[|ps| - 1].c, ps[|ps| - 1].k, ps[|ps| - 1].v)
  }

  ghost predicate Apart(ps: seq<Put>) {
    forall i, j :: 0 <= i < j < |ps| ==> ps[i].k != ps[j].k
  }

  /** Every key has what was assigned to it, or what it had before. */
  lemma {:induction false} GetPuts(es: Entries, ps: seq<Put>, i: nat)
    requires Apart(ps) && i < |ps|
    ensures Get(Puts(es, ps), ps[i].k) == if ps[i].c then Some(ps[i].v) else Get(es, ps[i].k)
    decreases |ps|
  {
    var init, last := ps[..|ps| - 1], ps[|ps| - 1];
    hide Get, SetIf;
    GetSetIf(Puts(es, init), last.c, last.k, last.v, ps[i].k);
    if i < |init| {
      assert init[i] == ps[i];
      GetPuts(es, init, i);
    } else {
      GetPutsElse(es, init, last.k);
    }
  }

  lemma {:induction false} GetPutsElse(es: Entries, ps: seq<Put>, k: Key)
    requires forall i :: 0 <= i < |ps| ==> ps[i].k != k
    ensures Get(Puts(es, ps), k) == Get(es, k)
  {
    if ps != [] {
      hide Get, SetIf;
      var init, last := ps[..|ps| - 1], ps[|ps| - 1];
      GetPutsElse(es, init, k);
      GetSetIf(Puts(es, init), last.c, last.k, last.v, k);
    }
  }

  lemma {:induction false} UnknownPuts(es: Entries, ps: seq<Put>, known: set<Key>)
    requires forall i :: 0 <= i < |ps| ==> ps[i].k in known
    ensures Unknown(Puts(es, ps), known) == Unknown(es, known)
  {
    if ps != [] {
      hide Unknown, SetIf;
      var init, last := ps[..|ps| - 1], ps[|ps| - 1];
      UnknownPuts(es, init, known);
      UnknownSetIf(Puts(es, init), known, last.c, last.k, last.v);
    }
  }

  function LevelPuts(sc: Scalars, l: Level): (ps: seq<Put>)
    ensures |ps| == 10
  {
    [Put(l.drawing != "", Drawing, Map([(Filename, Scalar(l.drawing))])),
     Put(true, Elevation, DoubleNode(sc, l.elevation)),
     Put(true, Vertices, Seq(VertexNodes(sc, l.vertices))),
     Put(true, Lanes, Seq(EdgeNodes(sc, l.lanes))),
     Put(l.walls != [], Walls, Seq(EdgeNodes(sc, l.walls))),
     Put(l.doors != [], Doors, Seq(EdgeNodes(sc, l.doors))),
     Put(l.measurements != [], Measurements, Seq(EdgeNodes(sc, l.measurements))),
     Put(l.floors != [], Floors, Seq(FloorNodes(sc, l.floors))),
     Put(l.fiducials != [], Fiducials, Seq(FiducialNodes(sc, l.fiducials))),
     Put(l.layers != [], Layers, Map(SetAll(LayerPairs(sc, l.layers))))]
  }

  lemma PutsNext(es: Entries, ps: seq<Put>, k: nat)
    requires k < |ps|
    ensures Puts(es, ps[..k + 1]) == SetIf(Puts(es, ps[..k]), ps[k].c, ps[k].k, ps[k].v)
  {
    assert ps[..k + 1][..k] == ps[..k];
  }

  lemma LevelIsPuts(sc: Scalars, l: Level)
    ensures LevelEntries(sc, l) == Puts(Spliced(l.passthrough), LevelPuts(sc, l))
  {
    var ps, es := LevelPuts(sc, l), Spliced(l.passthrough);
    hide Set, Puts, VertexNodes, EdgeNodes, FloorNodes, FiducialNodes, LayerPairs, SetAll, Spliced;
    PutsNone(es, ps);
    PutsNext(es, ps, 0);
    PutsNext(es, ps, 1);
    PutsNext(es, ps, 2);
    PutsNext(es, ps, 3);
    PutsNext(es, ps, 4);
    PutsNext(es, ps, 5);
    PutsNext(es, ps, 6);
    PutsNext(es, ps, 7);
    PutsNext(es, ps, 8);
    PutsNext(es, ps, 9);
    assert ps[..10] == ps;
  }

  lemma PutsNone(es: Entries, ps: seq<Put>)
    ensures Puts(es, ps[..0]) == es
  {
  }

  lemma LevelPutsApart(sc: Scalars, l: Level)
    ensures Apart(LevelPuts(sc, l)) && forall i :: 0 <= i < 10 ==> LevelPuts(sc, l)[i].k in LEVEL_KEYS
  {
    hide VertexNodes, EdgeNodes, FloorNodes, FiducialNodes, LayerPairs, SetAll;
  }

  /** What the printed level has under each key. */
  lemma LevelGets(sc: Scalars, l: Level, i: nat)
    requires Passes(l.passthrough, LEVEL_KEYS) && i < 10
    ensures var p := LevelPuts(sc, l)[i]; Get(LevelEntries(sc, l), p.k) == if p.c then Some(p.v) else None
  {
    PassesSpliced(l.passthrough, LEVEL_KEYS);
    LevelPutsApart(sc, l);
    LevelIsPuts(sc, l);
    hide Get, LevelEntries, Puts, LevelPuts, Spliced;
    GetPuts(Spliced(l.passthrough), LevelPuts(sc, l), i);
  }

  lemma LevelUnknown(sc: Scalars, l: Level)
    requires Passes(l.passthrough, LEVEL_KEYS)
    ensures Unknown(LevelEntries(sc, l), LEVEL_KEYS) == l.passthrough.entries
  {
    PassesSpliced(l.passthrough, LEVEL_KEYS);
    LevelPutsApart(sc, l);
    LevelIsPuts(sc, l);
    hide Unknown, LevelEntries, Puts, LevelPuts, Spliced;
    UnknownPuts(Spliced(l.passthrough), LevelPuts(sc, l), LEVEL_KEYS);
  }

  /** A key is there with this value, or not at all. */
  ghost predicate Has(es: Entries, c: bool, k: Key, v: Node) {
    Get(es, k) == if c then Some(v) else None
  }

  /** What the printed level has under each of its keys. */
  ghost predicate LevelHas(sc: Scalars, l: Level, es: Entries) {
    && Has(es, l.drawing != "", Drawing, Map([(Filename, Scalar(l.drawing))]))
    && Has(es, true, Elevation, DoubleNode(sc, l.elevation))
    && Has(es, true, Vertices, Seq(VertexNodes(sc, l.vertices)))
    && Has(es, true, Lanes, Seq(EdgeNodes(sc, l.lanes)))
    && Has(es, l.walls != [], Walls, Seq(EdgeNodes(sc, l.walls)))
    && Has(es, l.doors != [], Doors, Seq(EdgeNodes(sc, l.doors)))
    && Has(es, l.measurements != [], Measurements, Seq(EdgeNodes(sc, l.measurements)))
    && Has(es, l.floors != [], Floors, Seq(FloorNodes(sc, l.floors)))
    && Has(es, l.fiducials != [], Fiducials, Seq(FiducialNodes(sc, l.fiducials)))
    && Has(es, l.layers != [], Layers, Map(SetAll(LayerPairs(sc, l.layers))))
  }

  /** A key is there with this value, or missing where that means the same. */
  ghost predicate May(es: Entries, none: bool, k: Key, v: Node) {
    Get(es, k) == Some(v) || (none && Get(es, k) == None)
  }

  /** The mapping stands for the level: each key as printing it writes it, or missing where the level has the
      default. */
  ghost predicate LevelIn(sc: Scalars, l: Level, es: Entries) {
    && May(es, l.drawing == "", Drawing, Map([(Filename, Scalar(l.drawing))]))
    && May(es, l.elevation == ZERO, Elevation, DoubleNode(sc, l.elevation))
    && May(es, l.vertices == [], Vertices, Seq(VertexNodes(sc, l.vertices)))
    && May(es, l.lanes == [], Lanes, Seq(EdgeNodes(sc, l.lanes)))
    && May(es, l.walls == [], Walls, Seq(EdgeNodes(sc, l.walls)))
    && May(es, l.doors == [], Doors, Seq(EdgeNodes(sc, l.doors)))
    && May(es, l.measurements == [], Measurements, Seq(EdgeNodes(sc, l.measurements)))
    && May(es, l.floors == [], Floors, Seq(FloorNodes(sc, l.floors)))
    && May(es, l.fiducials == [], Fiducials, Seq(FiducialNodes(sc, l.fiducials)))
    && May(es, l.layers == [], Layers, Map(SetAll(LayerPairs(sc, l.layers))))
  }

  lemma LevelHasIsIn(sc: Scalars, l: Level, es: Entries)
    requires LevelHas(sc, l, es)
    ensures LevelIn(sc, l, es)
  {
    hide VertexNodes, EdgeNodes, FloorNodes, FiducialNodes, LayerPairs, SetAll, DoubleNode, Get;
  }

  ghost predicate HasPut(es: Entries, p: Put) {
    Has(es, p.c, p.k, p.v)
  }

  lemma LevelHasAll(sc: Scalars, l: Level)
    requires Passes(l.passthrough, LEVEL_KEYS)
    ensures LevelHas(sc, l, LevelEntries(sc, l))
  {
    var es, ps := LevelEntries(sc, l), LevelPuts(sc, l);
    forall i | 0 <= i < 10 ensures HasPut(es, ps[i]) {
      LevelGets(sc, l, i);
    }
    hide Has, LevelEntries, VertexNodes, EdgeNodes, FloorNodes, FiducialNodes, LayerPairs, SetAll, DoubleNode;
    assert HasPut(es, ps[0]) && HasPut(es, ps[1]) && HasPut(es, ps[2]) && HasPut(es, ps[3]) && HasPut(es, ps[4]);
    assert HasPut(es, ps[5]) && HasPut(es, ps[6]) && HasPut(es, ps[7]) && HasPut(es, ps[8]) && HasPut(es, ps[9]);
  }

  lemma EdgesAtBack(sc: Scalars, es: Entries, k: Key, edges: seq<Edge>)
    requires Lawful(sc) && NormalEdges(sc, edges) && May(es, edges == [], k, Seq(EdgeNodes(sc, edges)))
    ensures EdgesAt(sc, es, k) == Ok(edges)
  {
    EdgesBack(sc, edges);
    hide Get, EdgeNodes, NormalEdges, Lawful;
  }

  lemma VerticesAtBack(sc: Scalars, es: Entries, vs: seq<Vertex>)
    requires Lawful(sc) && May(es, vs == [], Vertices, Seq(VertexNodes(sc, vs))) && forall v :: v in vs ==> NormalVertex(sc, v)
    ensures VerticesAt(sc, es) == Ok(vs)
  {
    VerticesBack(sc, vs);
    hide Get, VertexNodes, NormalVertex, Lawful;
  }

  lemma DrawingBack(es: Entries, drawing: string)
    requires May(es, drawing == "", Drawing, Map([(Filename, Scalar(drawing))]))
    ensures DrawingOf(es) == Ok(drawing)
  {
    var ds: Entries := [(Filename, Scalar(drawing))];
    GetStep(ds, Filename);
    hide Get;
    TextBack(ds, Filename, drawing);
  }

  lemma ListsBack(sc: Scalars, l: Level, es: Entries)
    requires Lawful(sc) && PlainLevel(sc, l) && LevelIn(sc, l, es)
    ensures FloorsOf(sc, ItemsAt(es, Floors)) == Ok(FloorsAgain(sc, l.floors))
    ensures FiducialsOf(sc, ItemsAt(es, Fiducials)) == l.fiducials
    ensures LayersOf(sc, EntriesAt(es, Layers)) == l.layers
  {
    FloorsReread(sc, l.floors);
    FiducialsBack(sc, l.fiducials);
    LayersBack(sc, l.layers);
    hide Get, NormalLayer, PlainFloors, FloorAgain, NormalEdges, NormalVertex, DistinctLayers, Lawful, LayerNode, FloorNode, FiducialNode,
         VertexNodes, EdgeNodes;
    assert May(es, l.floors == [], Floors, Seq(FloorNodes(sc, l.floors)));
    assert May(es, l.fiducials == [], Fiducials, Seq(FiducialNodes(sc, l.fiducials)));
    assert May(es, l.layers == [], Layers, Map(SetAll(LayerPairs(sc, l.layers))));
  }

  lemma LevelEdges(sc: Scalars, l: Level, es: Entries)
    requires Lawful(sc) && PlainLevel(sc, l) && LevelIn(sc, l, es)
    ensures EdgesAt(sc, es, Lanes) == Ok(l.lanes) && EdgesAt(sc, es, Walls) == Ok(l.walls)
    ensures EdgesAt(sc, es, Doors) == Ok(l.doors) && EdgesAt(sc, es, Measurements) == Ok(l.measurements)
  {
    hide May, PlainFloors, NormalLayer, DistinctLayers, NormalEdges, NormalVertex, VertexNodes, EdgeNodes, Lawful, SetAll,
         LayerPairs, FloorNodes, FiducialNodes, EdgesAt;
    EdgesAtBack(sc, es, Lanes, l.lanes);
    EdgesAtBack(sc, es, Walls, l.walls);
    EdgesAtBack(sc, es, Doors, l.doors);
    EdgesAtBack(sc, es, Measurements, l.measurements);
  }

  lemma LevelHead(sc: Scalars, l: Level, es: Entries)
    requires Lawful(sc) && PlainLevel(sc, l) && LevelIn(sc, l, es)
    ensures DrawingOf(es) == Ok(l.drawing) && DoubleAt(sc, es, Elevation, ZERO) == l.elevation && VerticesAt(sc, es) == Ok(l.vertices)
  {
    hide May, PlainFloors, NormalLayer, DistinctLayers, NormalEdges, NormalVertex, VertexNodes, EdgeNodes, Lawful, SetAll,
         LayerPairs, FloorNodes, FiducialNodes, DrawingOf, VerticesAt, DoubleAt;
    DrawingBack(es, l.drawing);
    ElevationBack(sc, es, l.elevation);
    VerticesAtBack(sc, es, l.vertices);
  }

  lemma LevelReads(sc: Scalars, l: Level, es: Entries)
    requires Lawful(sc) && PlainLevel(sc, l) && LevelIn(sc, l, es) && l.passthrough == Map(Unknown(es, LEVEL_KEYS))
    ensures LevelOf(sc, l.name, Map(es)) == Ok(LevelAgain(sc, l))
  {
    hide LevelIn, PlainLevel, Lawful, FloorsAgain, Unknown, DrawingOf, VerticesAt, EdgesAt, FloorsOf, FiducialsOf, LayersOf, ItemsAt, EntriesAt, DoubleAt;
    LevelHead(sc, l, es);
    LevelEdges(sc, l, es);
    ListsBack(sc, l, es);
  }

  lemma ElevationBack(sc: Scalars, es: Entries, d: Double)
    requires Lawful(sc) && May(es, d == ZERO, Elevation, DoubleNode(sc, d))
    ensures DoubleAt(sc, es, Elevation, ZERO) == d
  {
    hide Get;
  }

  lemma LevelReread(sc: Scalars, l: Level)
    requires Lawful(sc) && PlainLevel(sc, l)
    ensures LevelOf(sc, l.name, LevelNode(sc, l)) == Ok(LevelAgain(sc, l))
  {
    LevelHasAll(sc, l);
    LevelUnknown(sc, l);
    LevelHasIsIn(sc, l, LevelEntries(sc, l));
    hide LevelEntries, LevelHas, LevelIn, PlainLevel, LevelOf, Unknown, Lawful;
    LevelReads(sc, l, LevelEntries(sc, l));
  }

  lemma LevelBack(sc: Scalars, l: Level)
    requires Lawful(sc) && NormalLevel(sc, l)
    ensures LevelOf(sc, l.name, LevelNode(sc, l)) == Ok(l)
  {
    FloorsSame(sc, l.floors);
    hide LevelNode, LevelOf, Lawful;
    LevelReread(sc, l);
  }
}
