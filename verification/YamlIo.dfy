/** The converters of `model/yaml_io.cpp` as they run: loops that fill lists and assign keys. */
module YamlIo {
  import opened YamlTree
  import opened YamlBuilding

  // ---------------------------------------------------------------- parameters

  method ParseParams(sc: Scalars, es: Entries) returns (r: Result<Params>)
    ensures r == ParamsOf(sc, es)
  {
    hide ParamOf, Insert;
    var ps: Params := [];
    for i := 0 to |es|
      invariant ParamsOf(sc, es[..i]) == Ok(ps)
    {
      assert es[..i + 1][..i] == es[..i];
      var p := ParamOf(sc, es[i].1);
      if p.Err? {
        ParamsStop(sc, es, i + 1);
        return Err;
      }
      ps := Insert(sc, ps, es[i].0, p.value);
    }
    assert es[..|es|] == es;
    return Ok(ps);
  }

  lemma {:induction false} ParamsStop(sc: Scalars, es: Entries, i: nat)
    requires i <= |es| && ParamsOf(sc, es[..i]).Err?
    ensures ParamsOf(sc, es).Err?
    decreases |es|
  {
    if i < |es| {
      assert es[..|es| - 1][..i] == es[..i];
      ParamsStop(sc, es[..|es| - 1], i);
    } else {
      assert es[..i] == es;
    }
  }

  method PrintParams(sc: Scalars, ps: Params) returns (es: Entries)
    ensures es == ParamEntries(sc, ps)
  {
    hide ParamNode, Set;
    es := [];
    for i := 0 to |ps|
      invariant es == ParamEntries(sc, ps[..i])
    {
      assert ps[..i + 1][..i] == ps[..i];
      es := Set(es, ps[i].0, ParamNode(sc, ps[i].1));
    }
    assert ps[..|ps|] == ps;
  }

  /** The parameters of a vertex: an empty text is passed over. */
  method PrintTelling(sc: Scalars, ps: Params) returns (es: Entries)
    ensures es == ParamEntries(sc, Telling(ps))
  {
    hide ParamNode, Set, Blank;
    es := [];
    for i := 0 to |ps|
      invariant es == ParamEntries(sc, Telling(ps[..i]))
    {
      assert ps[..i + 1][..i] == ps[..i];
      ghost var before := Telling(ps[..i]);
      if !Blank(ps[i].1) {
        assert (before + [ps[i]])[..|before|] == before;
        es := Set(es, ps[i].0, ParamNode(sc, ps[i].1));
      } else {
        assert before + [] == before;
      }
    }
    assert ps[..|ps|] == ps;
  }

  // ---------------------------------------------------------------- vertices, edges

  method ParseVertex(sc: Scalars, n: Node) returns (r: Result<Vertex>)
    ensures r == VertexOf(sc, n)
  {
    if !n.Seq? || |n.items| < 2 { return Err; }
    var x, y := AsDouble(sc, n.items[0]), AsDouble(sc, n.items[1]);
    if x.None? || y.None? { return Err; }
    var v := Vertex(x.value, y.value, ZERO, "", []);
    if |n.items| >= 3 { v := v.(z := Or(AsDouble(sc, n.items[2]), ZERO)); }
    if |n.items| >= 4 { v := v.(name := Or(AsText(n.items[3]), "")); }
    if |n.items| >= 5 && n.items[4].Map? {
      var ps := ParseParams(sc, n.items[4].entries);
      if ps.Err? { return Err; }
      v := v.(params := ps.value);
    }
    return Ok(v);
  }

  method PrintVertex(sc: Scalars, v: Vertex) returns (n: Node)
    ensures n == VertexNode(sc, v)
  {
    var items := [DoubleNode(sc, v.x), DoubleNode(sc, v.y), DoubleNode(sc, v.z), Scalar(v.name)];
    var params := PrintTelling(sc, v.params);
    return Seq(items + [Map(params)]);
  }

  method ParseEdge(sc: Scalars, n: Node) returns (r: Result<Edge>)
    ensures r == EdgeOf(sc, n)
  {
    if !n.Seq? || |n.items| < 2 { return Err; }
    var start, end := AsInt(sc, n.items[0]), AsInt(sc, n.items[1]);
    if start.None? || end.None? { return Err; }
    var e := Edge(start.value, end.value, []);
    if |n.items| >= 3 && n.items[2].Map? {
      var ps := ParseParams(sc, n.items[2].entries);
      if ps.Err? { return Err; }
      e := e.(params := ps.value);
    }
    return Ok(e);
  }

  method PrintEdge(sc: Scalars, e: Edge) returns (n: Node)
    ensures n == EdgeNode(sc, e)
  {
    var params := PrintParams(sc, e.params);
    return Seq([IntNode(sc, e.start), IntNode(sc, e.end), Map(params)]);
  }

  // ---------------------------------------------------------------- passthrough

  /** The entries of the unmodelled keys, assigned one by one. */
  method Stash(es: Entries, known: set<Key>) returns (kept: Entries)
    ensures kept == Unknown(es, known)
  {
    hide Set;
    kept := [];
    for i := 0 to |es|
      invariant kept == Unknown(es[..i], known)
    {
      assert es[..i + 1][..i] == es[..i];
      if es[i].0 !in known { kept := Set(kept, es[i].0, es[i].1); }
    }
    assert es[..|es|] == es;
  }

  /** The unmodelled entries put back first, so that the known keys win. */
  method Splice(passthrough: Node) returns (es: Entries)
    ensures es == Spliced(passthrough)
  {
    hide Set;
    es := [];
    if passthrough.Map? {
      var from := passthrough.entries;
      for i := 0 to |from|
        invariant es == SetAll(from[..i])
      {
        assert from[..i + 1][..i] == from[..i];
        es := Set(es, from[i].0, from[i].1);
      }
      assert from[..|from|] == from;
    }
  }

  // ---------------------------------------------------------------- floors

  method TestHoles(n: Node) returns (typed: bool)
    ensures typed == Typed(n)
  {
    if !n.Seq? { return false; }
    for i := 0 to |n.items|
      invariant forall k :: 0 <= k < i ==> n.items[k].Seq? && forall v :: v in n.items[k].items ==> v.Scalar?
    {
      var loop := n.items[i];
      if !loop.Seq? { return false; }
      for j := 0 to |loop.items|
        invariant forall k :: 0 <= k < j ==> loop.items[k].Scalar?
      {
        if !loop.items[j].Scalar? { return false; }
      }
    }
    return true;
  }

  method ParseInts(sc: Scalars, ns: seq<Node>) returns (ints: seq<Int32>)
    ensures ints == IntsOf(sc, ns)
  {
    ints := [];
    for i := 0 to |ns|
      invariant ints == IntsOf(sc, ns[..i])
    {
      ints := ints + [Or(AsInt(sc, ns[i]), 0)];
    }
    assert ns[..|ns|] == ns;
  }

  method PrintInts(sc: Scalars, ints: seq<Int32>) returns (ns: seq<Node>)
    ensures ns == IntNodes(sc, ints)
  {
    ns := [];
    for i := 0 to |ints|
      invariant ns == IntNodes(sc, ints[..i])
    {
      ns := ns + [IntNode(sc, ints[i])];
    }
    assert ints[..|ints|] == ints;
  }

  method ParseFloor(sc: Scalars, n: Node) returns (r: Result<Floor>)
    ensures r == FloorOf(sc, n)
  {
    if !n.Map? { return Ok(Floor([], [], [], Null)); }
    var es := n.entries;
    var vertices: seq<Int32>, params: Params, holes: seq<seq<Int32>> := [], [], [];
    var vs, ps, hs := Get(es, Vertices), Get(es, Parameters), Get(es, Holes);
    if vs.Some? && vs.value.Seq? { vertices := ParseInts(sc, vs.value.items); }
    assert vertices == IntsOf(sc, ItemsAt(es, Vertices));
    if ps.Some? && ps.value.Map? {
      var parsed := ParseParams(sc, ps.value.entries);
      if parsed.Err? { return Err; }
      params := parsed.value;
    }
    var typed := false;
    if hs.Some? { typed := TestHoles(hs.value); }
    if typed { holes := ParseLoops(sc, hs.value.items); }
    assert typed == HolesTyped(es);
    assert typed ==> holes == LoopsOf(sc, ItemsAt(es, Holes));
    hide Typed, IntsOf, LoopsOf, ParamsOf, Unknown, ItemsAt;
    var kept := Stash(es, if typed then HOLED_KEYS else FLOOR_KEYS);
    return Ok(Floor(vertices, holes, params, Map(kept)));
  }

  method ParseLoops(sc: Scalars, ns: seq<Node>) returns (loops: seq<seq<Int32>>)
    ensures loops == LoopsOf(sc, ns)
  {
    hide IntsOf;
    loops := [];
    for i := 0 to |ns|
      invariant loops == LoopsOf(sc, ns[..i])
    {
      var h: seq<Int32> := [];
      if ns[i].Seq? { h := ParseInts(sc, ns[i].items); }
      loops := loops + [h];
    }
    assert ns[..|ns|] == ns;
  }

  method PrintLoops(sc: Scalars, loops: seq<seq<Int32>>) returns (ns: seq<Node>)
    ensures ns == LoopNodes(sc, loops)
  {
    hide IntNodes;
    ns := [];
    for i := 0 to |loops|
      invariant ns == LoopNodes(sc, loops[..i])
    {
      var h := PrintInts(sc, loops[i]);
      ns := ns + [Seq(h)];
    }
    assert loops[..|loops|] == loops;
  }

  method PrintFloor(sc: Scalars, f: Floor) returns (n: Node)
    ensures n == FloorNode(sc, f)
  {
    hide Set, ParamEntries, IntNodes, LoopNodes, Spliced;
    var es := Splice(f.passthrough);
    var params := PrintParams(sc, f.params);
    es := Set(es, Parameters, Map(params));
    var verts := PrintInts(sc, f.vertices);
    es := Set(es, Vertices, Seq(verts));
    if f.holes != [] {
      var holes := PrintLoops(sc, f.holes);
      es := Set(es, Holes, Seq(holes));
    }
    return Map(es);
  }

  // ---------------------------------------------------------------- layers

  method ParseLayer(sc: Scalars, name: Key, n: Node) returns (l: Layer)
    ensures l == LayerOf(sc, name, n)
  {
    hide Unknown, Get;
    l := Layer(name, "", true, Colour(ONE, ONE, ONE, HALF), Place(ONE, ZERO, ZERO, ZERO), Null);
    if !n.Map? { return; }
    var es := n.entries;
    l := l.(filename := TextAt(es, Filename));
    var visible := Get(es, Visible);
    if visible.Some? { l := l.(visible := Or(AsBool(sc, visible.value), true)); }
    l := l.(color := ColourOf(sc, es), place := PlaceOf(sc, es));
    var kept := Stash(es, LAYER_KEYS);
    l := l.(passthrough := Map(kept));
  }

  method PrintLayer(sc: Scalars, l: Layer) returns (n: Node)
    ensures n == LayerNode(sc, l)
  {
    hide Set, Spliced;
    var es := Splice(l.passthrough);
    es := Set(es, Filename, Scalar(l.filename));
    es := Set(es, Visible, BoolNode(sc, l.visible));
    es := Set(es, Color, ColourNode(sc, l.color));
    es := Set(es, Transform, PlaceNode(sc, l.place));
    return Map(es);
  }

  // ---------------------------------------------------------------- lists

  method ParseVertices(sc: Scalars, ns: seq<Node>) returns (r: Result<seq<Vertex>>)
    ensures r == VerticesOf(sc, ns)
  {
    hide VertexOf;
    var vs: seq<Vertex> := [];
    for i := 0 to |ns|
      invariant VerticesOf(sc, ns[..i]) == Ok(vs)
    {
      assert ns[..i + 1][..i] == ns[..i];
      var v := ParseVertex(sc, ns[i]);
      if v.Err? {
        VerticesStop(sc, ns, i + 1);
        return Err;
      }
      vs := vs + [v.value];
    }
    assert ns[..|ns|] == ns;
    return Ok(vs);
  }

  lemma {:induction false} VerticesStop(sc: Scalars, ns: seq<Node>, i: nat)
    requires i <= |ns| && VerticesOf(sc, ns[..i]).Err?
    ensures VerticesOf(sc, ns).Err?
    decreases |ns|
  {
    hide VertexOf;
    if i < |ns| {
      assert ns[..|ns| - 1][..i] == ns[..i];
      VerticesStop(sc, ns[..|ns| - 1], i);
    } else {
      assert ns[..i] == ns;
    }
  }

  method ParseEdges(sc: Scalars, ns: seq<Node>) returns (r: Result<seq<Edge>>)
    ensures r == EdgesOf(sc, ns)
  {
    hide EdgeOf;
    var es: seq<Edge> := [];
    for i := 0 to |ns|
      invariant EdgesOf(sc, ns[..i]) == Ok(es)
    {
      assert ns[..i + 1][..i] == ns[..i];
      var e := ParseEdge(sc, ns[i]);
      if e.Err? {
        EdgesStop(sc, ns, i + 1);
        return Err;
      }
      es := es + [e.value];
    }
    assert ns[..|ns|] == ns;
    return Ok(es);
  }

  lemma {:induction false} EdgesStop(sc: Scalars, ns: seq<Node>, i: nat)
    requires i <= |ns| && EdgesOf(sc, ns[..i]).Err?
    ensures EdgesOf(sc, ns).Err?
    decreases |ns|
  {
    hide EdgeOf;
    if i < |ns| {
      assert ns[..|ns| - 1][..i] == ns[..i];
      EdgesStop(sc, ns[..|ns| - 1], i);
    } else {
      assert ns[..i] == ns;
    }
  }

  method ParseFloors(sc: Scalars, ns: seq<Node>) returns (r: Result<seq<Floor>>)
    ensures r == FloorsOf(sc, ns)
  {
    hide FloorOf;
    var fs: seq<Floor> := [];
    for i := 0 to |ns|
      invariant FloorsOf(sc, ns[..i]) == Ok(fs)
    {
      assert ns[..i + 1][..i] == ns[..i];
      var f := ParseFloor(sc, ns[i]);
      if f.Err? {
        FloorsStop(sc, ns, i + 1);
        return Err;
      }
      fs := fs + [f.value];
    }
    assert ns[..|ns|] == ns;
    return Ok(fs);
  }

  lemma {:induction false} FloorsStop(sc: Scalars, ns: seq<Node>, i: nat)
    requires i <= |ns| && FloorsOf(sc, ns[..i]).Err?
    ensures FloorsOf(sc, ns).Err?
    decreases |ns|
  {
    hide FloorOf;
    if i < |ns| {
      assert ns[..|ns| - 1][..i] == ns[..i];
      FloorsStop(sc, ns[..|ns| - 1], i);
    } else {
      assert ns[..i] == ns;
    }
  }

  method ParseLayers(sc: Scalars, es: Entries) returns (ls: seq<Layer>)
    ensures ls == LayersOf(sc, es)
  {
    hide LayerOf;
    ls := [];
    for i := 0 to |es|
      invariant ls == LayersOf(sc, es[..i])
    {
      var l := ParseLayer(sc, es[i].0, es[i].1);
      ls := ls + [l];
    }
    assert es[..|es|] == es;
  }

  method ParseFiducials(sc: Scalars, ns: seq<Node>) returns (fs: seq<Fiducial>)
    ensures fs == FiducialsOf(sc, ns)
  {
    hide FiducialOf;
    fs := [];
    for i := 0 to |ns|
      invariant fs == FiducialsOf(sc, ns[..i])
    {
      fs := fs + [FiducialOf(sc, ns[i])];
    }
    assert ns[..|ns|] == ns;
  }

  method PrintVertices(sc: Scalars, vs: seq<Vertex>) returns (ns: seq<Node>)
    ensures ns == VertexNodes(sc, vs)
  {
    hide VertexNode;
    ns := [];
    for i := 0 to |vs|
      invariant ns == VertexNodes(sc, vs[..i])
    {
      var n := PrintVertex(sc, vs[i]);
      ns := ns + [n];
    }
    assert vs[..|vs|] == vs;
  }

  method PrintEdges(sc: Scalars, es: seq<Edge>) returns (ns: seq<Node>)
    ensures ns == EdgeNodes(sc, es)
  {
    hide EdgeNode;
    ns := [];
    for i := 0 to |es|
      invariant ns == EdgeNodes(sc, es[..i])
    {
      var n := PrintEdge(sc, es[i]);
      ns := ns + [n];
    }
    assert es[..|es|] == es;
  }

  method PrintFloors(sc: Scalars, fs: seq<Floor>) returns (ns: seq<Node>)
    ensures ns == FloorNodes(sc, fs)
  {
    hide FloorNode;
    ns := [];
    for i := 0 to |fs|
      invariant ns == FloorNodes(sc, fs[..i])
    {
      var n := PrintFloor(sc, fs[i]);
      ns := ns + [n];
    }
    assert fs[..|fs|] == fs;
  }

  method PrintFiducials(sc: Scalars, fs: seq<Fiducial>) returns (ns: seq<Node>)
    ensures ns == FiducialNodes(sc, fs)
  {
    hide FiducialNode;
    ns := [];
    for i := 0 to |fs|
      invariant ns == FiducialNodes(sc, fs[..i])
    {
      ns := ns + [FiducialNode(sc, fs[i])];
    }
    assert fs[..|fs|] == fs;
  }

  method PrintLayers(sc: Scalars, ls: seq<Layer>) returns (es: Entries)
    ensures es == SetAll(LayerPairs(sc, ls))
  {
    hide LayerNode, Set;
    es := [];
    for i := 0 to |ls|
      invariant es == SetAll(LayerPairs(sc, ls[..i]))
    {
      var n := PrintLayer(sc, ls[i]);
      var pairs := LayerPairs(sc, ls[..i + 1]);
      assert pairs[..|pairs| - 1] == LayerPairs(sc, ls[..i]);
      es := Set(es, ls[i].name, n);
    }
    assert ls[..|ls|] == ls;
  }

  // ---------------------------------------------------------------- levels

  method ParseEdgesAt(sc: Scalars, es: Entries, k: Key) returns (r: Result<seq<Edge>>)
    ensures r == EdgesAt(sc, es, k)
  {
    var ns := ElementsAt(es, k);
    if ns.Err? { return Err; }
    r := ParseEdges(sc, ns.value);
  }

  method ParseLevel(sc: Scalars, name: Key, n: Node) returns (r: Result<Level>)
    ensures r == LevelOf(sc, name, n)
  {
    hide EdgesAt, VerticesOf, FloorsOf, LayersOf, FiducialsOf, Unknown, ItemsAt, EntriesAt, ElementsAt, DrawingOf, DoubleAt;
    if n.Scalar? || (n.Seq? && n.items != []) { return Err; }
    var es := if n.Map? then n.entries else [];
    var drawing := DrawingOf(es);
    if drawing.Err? { return Err; }
    var at := ElementsAt(es, Vertices);
    if at.Err? { return Err; }
    var vertices := ParseVertices(sc, at.value);
    if vertices.Err? { return Err; }
    var lanes := ParseEdgesAt(sc, es, Lanes);
    if lanes.Err? { return Err; }
    var walls := ParseEdgesAt(sc, es, Walls);
    if walls.Err? { return Err; }
    var doors := ParseEdgesAt(sc, es, Doors);
    if doors.Err? { return Err; }
    var measurements := ParseEdgesAt(sc, es, Measurements);
    if measurements.Err? { return Err; }
    var floors := ParseFloors(sc, ItemsAt(es, Floors));
    if floors.Err? { return Err; }
    var fiducials := ParseFiducials(sc, ItemsAt(es, Fiducials));
    var layers := ParseLayers(sc, EntriesAt(es, Layers));
    var kept := Stash(es, LEVEL_KEYS);
    return Ok(Level(name, DoubleAt(sc, es, Elevation, ZERO), drawing.value, vertices.value, lanes.value, walls.value, doors.value,
                    measurements.value, floors.value, fiducials, layers, Map(kept)));
  }

  method PrintLevel(sc: Scalars, l: Level) returns (n: Node)
    ensures n == LevelNode(sc, l)
  {
    hide Set, Spliced, VertexNodes, EdgeNodes, FloorNodes, FiducialNodes, LayerPairs, SetAll;
    var es := Splice(l.passthrough);
    if l.drawing != "" { es := Set(es, Drawing, Map([(Filename, Scalar(l.drawing))])); }
    es := Set(es, Elevation, DoubleNode(sc, l.elevation));
    var ns := PrintVertices(sc, l.vertices);
    es := Set(es, Vertices, Seq(ns));
    ns := PrintEdges(sc, l.lanes);
    es := Set(es, Lanes, Seq(ns));
    es := PrintEdgesIf(sc, es, Walls, l.walls);
    es := PrintEdgesIf(sc, es, Doors, l.doors);
    es := PrintEdgesIf(sc, es, Measurements, l.measurements);
    if l.floors != [] {
      ns := PrintFloors(sc, l.floors);
      es := Set(es, Floors, Seq(ns));
    }
    if l.fiducials != [] {
      ns := PrintFiducials(sc, l.fiducials);
      es := Set(es, Fiducials, Seq(ns));
    }
    if l.layers != [] {
      var layers := PrintLayers(sc, l.layers);
      es := Set(es, Layers, Map(layers));
    }
    return Map(es);
  }

  method PrintEdgesIf(sc: Scalars, es: Entries, k: Key, edges: seq<Edge>) returns (now: Entries)
    ensures now == SetIf(es, edges != [], k, Seq(EdgeNodes(sc, edges)))
  {
    now := es;
    if edges != [] {
      var ns := PrintEdges(sc, edges);
      now := Set(es, k, Seq(ns));
    }
  }

  // ---------------------------------------------------------------- the building

  method ParseLevels(sc: Scalars, es: Entries) returns (r: Result<seq<Level>>)
    ensures r == LevelsOf(sc, es)
  {
    hide LevelOf;
    var ls: seq<Level> := [];
    for i := 0 to |es|
      invariant LevelsOf(sc, es[..i]) == Ok(ls)
    {
      assert es[..i + 1][..i] == es[..i];
      var l := ParseLevel(sc, es[i].0, es[i].1);
      if l.Err? {
        LevelsStop(sc, es, i + 1);
        return Err;
      }
      ls := ls + [l.value];
    }
    assert es[..|es|] == es;
    return Ok(ls);
  }

  lemma {:induction false} LevelsStop(sc: Scalars, es: Entries, i: nat)
    requires i <= |es| && LevelsOf(sc, es[..i]).Err?
    ensures LevelsOf(sc, es).Err?
    decreases |es|
  {
    hide LevelOf;
    if i < |es| {
      assert es[..|es| - 1][..i] == es[..i];
      LevelsStop(sc, es[..|es| - 1], i);
    } else {
      assert es[..i] == es;
    }
  }

  /** `parse_building`, from the loaded tree. */
  method ParseBuilding(sc: Scalars, root: Node) returns (r: Result<Building>)
    ensures r == BuildingOf(sc, root)
  {
    hide LevelsOf, Unknown, TextAt, EntriesAt;
    if !root.Map? { return Err; }
    var es := root.entries;
    var levels := ParseLevels(sc, EntriesAt(es, Levels));
    if levels.Err? { return Err; }
    var kept := Stash(es, BUILDING_KEYS);
    return Ok(Building(TextAt(es, Name), TextAt(es, CoordinateSystem), TextAt(es, ReferenceLevelName), levels.value, Map(kept)));
  }

  method PrintLevels(sc: Scalars, ls: seq<Level>) returns (es: Entries)
    ensures es == SetAll(LevelPairs(sc, ls))
  {
    hide LevelNode, Set;
    es := [];
    for i := 0 to |ls|
      invariant es == SetAll(LevelPairs(sc, ls[..i]))
    {
      var n := PrintLevel(sc, ls[i]);
      var pairs := LevelPairs(sc, ls[..i + 1]);
      assert pairs[..|pairs| - 1] == LevelPairs(sc, ls[..i]);
      es := Set(es, ls[i].name, n);
    }
    assert ls[..|ls|] == ls;
  }

  /** `serialize_building`, up to the tree it emits. */
  method PrintBuilding(sc: Scalars, b: Building) returns (n: Node)
    ensures n == BuildingNode(sc, b)
  {
    hide Set, Spliced, LevelPairs, SetAll;
    var es := Splice(b.passthrough);
    if b.coordinates != "" { es := Set(es, CoordinateSystem, Scalar(b.coordinates)); }
    if b.reference != "" { es := Set(es, ReferenceLevelName, Scalar(b.reference)); }
    es := Set(es, Name, Scalar(b.name));
    var levels := PrintLevels(sc, b.levels);
    es := Set(es, Levels, Map(levels));
    return Map(es);
  }
}
