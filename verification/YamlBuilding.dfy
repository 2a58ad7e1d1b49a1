/** The building and its YAML tree, after `model/yaml_io.cpp`: what parsing and printing each entity
    means.  `YamlIo` has the converters themselves. */
module YamlBuilding {
  import opened YamlTree

  datatype Param = PString(s: string) | PInt(i: Int32) | PDouble(d: Double) | PBool(b: bool)

  /** An ordered map: by rising key. */
  type Params = seq<(Key, Param)>

  datatype Vertex = Vertex(x: Double, y: Double, z: Double, name: string, params: Params)
  /** Lanes, walls, doors and measurements alike. */
  datatype Edge = Edge(start: Int32, end: Int32, params: Params)
  datatype Floor = Floor(vertices: seq<Int32>, holes: seq<seq<Int32>>, params: Params, passthrough: Node)
  datatype Fiducial = Fiducial(x: Double, y: Double, name: string)
  datatype Colour = Colour(r: Double, g: Double, b: Double, a: Double)
  datatype Place = Place(scale: Double, yaw: Double, x: Double, y: Double)
  datatype Layer = Layer(name: Key, filename: string, visible: bool, color: Colour, place: Place, passthrough: Node)
  datatype Level = Level(name: Key, elevation: Double, drawing: string, vertices: seq<Vertex>,
                         lanes: seq<Edge>, walls: seq<Edge>, doors: seq<Edge>, measurements: seq<Edge>,
                         floors: seq<Floor>, fiducials: seq<Fiducial>, layers: seq<Layer>, passthrough: Node)
  datatype Building = Building(name: string, coordinates: string, reference: string, levels: seq<Level>, passthrough: Node)

  // ---------------------------------------------------------------- scalars

  function AsInt(sc: Scalars, n: Node): Option<Int32> {
    if n.Scalar? then sc.readInt(n.text) else None
  }

  function AsDouble(sc: Scalars, n: Node): Option<Double> {
    if n.Scalar? then sc.readDouble(n.text) else None
  }

  function AsBool(sc: Scalars, n: Node): Option<bool> {
    if n.Scalar? then sc.readBool(n.text) else None
  }

  /** The library reads a null node as this text. */
  function AsText(n: Node): Option<string> {
    if n.Null? then Some("null") else if n.Scalar? then Some(n.text) else None
  }

  function Or<T>(v: Option<T>, fallback: T): T {
    if v.Some? then v.value else fallback
  }

  function IntNode(sc: Scalars, i: Int32): Node { Scalar(sc.showInt(i)) }
  function DoubleNode(sc: Scalars, d: Double): Node { Scalar(sc.showDouble(d)) }
  function BoolNode(sc: Scalars, b: bool): Node { Scalar(sc.showBool(b)) }

  /** The value of a key if it is there, read with a fallback, else a default. */
  function TextAt(es: Entries, k: Key): string {
    var n := Get(es, k);
    if n.Some? then Or(AsText(n.value), "") else ""
  }

  function DoubleAt(sc: Scalars, es: Entries, k: Key, initial: Double): Double {
    var n := Get(es, k);
    if n.Some? then Or(AsDouble(sc, n.value), initial) else initial
  }

  // ---------------------------------------------------------------- parameters

  function ParamOf(sc: Scalars, n: Node): Result<Param> {
    if n.Seq? && |n.items| >= 2 then
      var code, v := AsInt(sc, n.items[0]), n.items[1];
      if code.None? then Err
      else if code.value == 2 then Ok(PInt(Or(AsInt(sc, v), 0)))
      else if code.value == 3 then Ok(PDouble(Or(AsDouble(sc, v), ZERO)))
      else if code.value == 4 then Ok(PBool(Or(AsBool(sc, v), false)))
      else Ok(PString(Or(AsText(v), "")))
    else if n.Scalar? then
      if sc.readBool(n.text).Some? then Ok(PBool(sc.readBool(n.text).value))
      else if sc.readInt(n.text).Some? then Ok(PInt(sc.readInt(n.text).value))
      else if sc.readDouble(n.text).Some? then Ok(PDouble(sc.readDouble(n.text).value))
      else Ok(PString(n.text))
    else Ok(PString(""))
  }

  function ParamNode(sc: Scalars, p: Param): Node {
    match p
    case PString(s) => Seq([IntNode(sc, 1), Scalar(s)])
    case PInt(i) => Seq([IntNode(sc, 2), IntNode(sc, i)])
    case PDouble(d) => Seq([IntNode(sc, 3), DoubleNode(sc, d)])
    case PBool(b) => Seq([IntNode(sc, 4), BoolNode(sc, b)])
  }

  /** `params[k] = v` on the ordered map. */
  function Insert(sc: Scalars, ps: Params, k: Key, v: Param): Params {
    if ps == [] then [(k, v)]
    else if ps[0].0 == k then [(k, v)] + ps[1..]
    else if sc.before(k, ps[0].0) then [(k, v)] + ps
    else [ps[0]] + Insert(sc, ps[1..], k, v)
  }

  function ParamsOf(sc: Scalars, es: Entries): Result<Params> {
    if es == [] then Ok([])
    else
      var ps, p := ParamsOf(sc, es[..|es| - 1]), ParamOf(sc, es[|es| - 1].1);
      if ps.Err? || p.Err? then Err else Ok(Insert(sc, ps.value, es[|es| - 1].0, p.value))
  }

  /** Parameters of a node that need not be a mapping. */
  function ParamsAt(sc: Scalars, n: Node): Result<Params> {
    if n.Map? then ParamsOf(sc, n.entries) else Ok([])
  }

  function ParamEntries(sc: Scalars, ps: Params): Entries {
    if ps == [] then []
    else Set(ParamEntries(sc, ps[..|ps| - 1]), ps[|ps| - 1].0, ParamNode(sc, ps[|ps| - 1].1))
  }

  predicate Blank(p: Param) {
    p.PString? && p.s == ""
  }

  /** A vertex prints no empty text. */
  function Telling(ps: Params): Params {
    if ps == [] then []
    else Telling(ps[..|ps| - 1]) + (if Blank(ps[|ps| - 1].1) then [] else [ps[|ps| - 1]])
  }

  // ---------------------------------------------------------------- vertices, edges, fiducials

  function VertexOf(sc: Scalars, n: Node): Result<Vertex> {
    if !n.Seq? || |n.items| < 2 then Err
    else
      var x, y := AsDouble(sc, n.items[0]), AsDouble(sc, n.items[1]);
      var ps := if |n.items| >= 5 then ParamsAt(sc, n.items[4]) else Ok([]);
      if x.None? || y.None? || ps.Err? then Err
      else
        Ok(Vertex(x.value, y.value,
                  if |n.items| >= 3 then Or(AsDouble(sc, n.items[2]), ZERO) else ZERO,
                  if |n.items| >= 4 then Or(AsText(n.items[3]), "") else "",
                  ps.value))
  }

  function VertexNode(sc: Scalars, v: Vertex): Node {
    Seq([DoubleNode(sc, v.x), DoubleNode(sc, v.y), DoubleNode(sc, v.z), Scalar(v.name), Map(ParamEntries(sc, Telling(v.params)))])
  }

  function EdgeOf(sc: Scalars, n: Node): Result<Edge> {
    if !n.Seq? || |n.items| < 2 then Err
    else
      var start, end := AsInt(sc, n.items[0]), AsInt(sc, n.items[1]);
      var ps := if |n.items| >= 3 then ParamsAt(sc, n.items[2]) else Ok([]);
      if start.None? || end.None? || ps.Err? then Err else Ok(Edge(start.value, end.value, ps.value))
  }

  function EdgeNode(sc: Scalars, e: Edge): Node {
    Seq([IntNode(sc, e.start), IntNode(sc, e.end), Map(ParamEntries(sc, e.params))])
  }

  function FiducialOf(sc: Scalars, n: Node): Fiducial {
    if !n.Seq? || |n.items| < 3 then Fiducial(ZERO, ZERO, "")
    else Fiducial(Or(AsDouble(sc, n.items[0]), ZERO), Or(AsDouble(sc, n.items[1]), ZERO), Or(AsText(n.items[2]), ""))
  }

  function FiducialNode(sc: Scalars, f: Fiducial): Node {
    Seq([DoubleNode(sc, f.x), DoubleNode(sc, f.y), Scalar(f.name)])
  }

  // ---------------------------------------------------------------- floors

  const FLOOR_KEYS := {Vertices, Parameters}
  const HOLED_KEYS := {Vertices, Parameters, Holes}

  /** `holes_are_typed`: a list of lists of scalars. */
  predicate Typed(n: Node) {
    n.Seq? && forall loop :: loop in n.items ==> loop.Seq? && forall v :: v in loop.items ==> v.Scalar?
  }

  function IntsOf(sc: Scalars, ns: seq<Node>): (r: seq<Int32>)
    ensures |r| == |ns|
  {
    seq(|ns|, i requires 0 <= i < |ns| => Or(AsInt(sc, ns[i]), 0))
  }

  function IntNodes(sc: Scalars, ints: seq<Int32>): (r: seq<Node>)
    ensures |r| == |ints|
  {
    seq(|ints|, i requires 0 <= i < |ints| => IntNode(sc, ints[i]))
  }

  function LoopsOf(sc: Scalars, ns: seq<Node>): (r: seq<seq<Int32>>)
    ensures |r| == |ns|
  {
    seq(|ns|, i requires 0 <= i < |ns| => if ns[i].Seq? then IntsOf(sc, ns[i].items) else [])
  }

  function LoopNodes(sc: Scalars, loops: seq<seq<Int32>>): (r: seq<Node>)
    ensures |r| == |loops|
  {
    seq(|loops|, i requires 0 <= i < |loops| => Seq(IntNodes(sc, loops[i])))
  }

  function ItemsAt(es: Entries, k: Key): seq<Node> {
    var n := Get(es, k);
    if n.Some? && n.value.Seq? then n.value.items else []
  }

  /** Whether the floor's holes are ones the model has. */
  predicate HolesTyped(es: Entries) {
    Get(es, Holes).Some? && Typed(Get(es, Holes).value)
  }

  function FloorOf(sc: Scalars, n: Node): Result<Floor> {
    if !n.Map? then Ok(Floor([], [], [], Null))
    else
      var es := n.entries;
      var ps := if Get(es, Parameters).Some? then ParamsAt(sc, Get(es, Parameters).value) else Ok([]);
      if ps.Err? then Err
      else
        Ok(Floor(IntsOf(sc, ItemsAt(es, Vertices)),
                 if HolesTyped(es) then LoopsOf(sc, ItemsAt(es, Holes)) else [],
                 ps.value,
                 Map(Unknown(es, if HolesTyped(es) then HOLED_KEYS else FLOOR_KEYS))))
  }

  /** The entries a passthrough brings in. */
  function Spliced(passthrough: Node): Entries {
    if passthrough.Map? then SetAll(passthrough.entries) else []
  }

  /** An assignment that is made only if there is something to assign. */
  function SetIf(es: Entries, c: bool, k: Key, v: Node): Entries {
    if c then Set(es, k, v) else es
  }

  function FloorEntries(sc: Scalars, f: Floor): Entries {
    var e1 := Set(Spliced(f.passthrough), Parameters, Map(ParamEntries(sc, f.params)));
    var e2 := Set(e1, Vertices, Seq(IntNodes(sc, f.vertices)));
    SetIf(e2, f.holes != [], Holes, Seq(LoopNodes(sc, f.holes)))
  }

  function FloorNode(sc: Scalars, f: Floor): Node {
    Map(FloorEntries(sc, f))
  }

  // ---------------------------------------------------------------- layers

  const LAYER_KEYS := {Filename, Visible, Color, Transform}

  function ColourOf(sc: Scalars, es: Entries): Colour {
    var ns := ItemsAt(es, Color);
    if |ns| >= 4 then
      Colour(Or(AsDouble(sc, ns[0]), ONE), Or(AsDouble(sc, ns[1]), ONE), Or(AsDouble(sc, ns[2]), ONE), Or(AsDouble(sc, ns[3]), HALF))
    else Colour(ONE, ONE, ONE, HALF)
  }

  function PlaceOf(sc: Scalars, es: Entries): Place {
    var t := Get(es, Transform);
    if t.Some? && t.value.Map? then
      var ts := t.value.entries;
      Place(DoubleAt(sc, ts, Scale, ONE), DoubleAt(sc, ts, Yaw, ZERO), DoubleAt(sc, ts, TranslationX, ZERO), DoubleAt(sc, ts, TranslationY, ZERO))
    else Place(ONE, ZERO, ZERO, ZERO)
  }

  function LayerOf(sc: Scalars, name: Key, n: Node): Layer {
    if !n.Map? then Layer(name, "", true, Colour(ONE, ONE, ONE, HALF), Place(ONE, ZERO, ZERO, ZERO), Null)
    else
      var es := n.entries;
      Layer(name, TextAt(es, Filename),
            if Get(es, Visible).Some? then Or(AsBool(sc, Get(es, Visible).value), true) else true,
            ColourOf(sc, es), PlaceOf(sc, es), Map(Unknown(es, LAYER_KEYS)))
  }

  function ColourNode(sc: Scalars, c: Colour): Node {
    Seq([DoubleNode(sc, c.r), DoubleNode(sc, c.g), DoubleNode(sc, c.b), DoubleNode(sc, c.a)])
  }

  function PlaceNode(sc: Scalars, p: Place): Node {
    Map([(Scale, DoubleNode(sc, p.scale)), (Yaw, DoubleNode(sc, p.yaw)), (TranslationX, DoubleNode(sc, p.x)), (TranslationY, DoubleNode(sc, p.y))])
  }

  function LayerEntries(sc: Scalars, l: Layer): Entries {
    var e1 := Set(Spliced(l.passthrough), Filename, Scalar(l.filename));
    var e2 := Set(e1, Visible, BoolNode(sc, l.visible));
    var e3 := Set(e2, Color, ColourNode(sc, l.color));
    Set(e3, Transform, PlaceNode(sc, l.place))
  }

  function LayerNode(sc: Scalars, l: Layer): Node {
    Map(LayerEntries(sc, l))
  }

  // ---------------------------------------------------------------- levels

  const LEVEL_KEYS := {Elevation, Drawing, Vertices, Lanes, Walls, Doors, Measurements, Floors, Fiducials, Layers}

  /** What a loop over a node runs through: nothing if it is no collection; the elements of a
      mapping are no nodes of their own. */
  function Elements(n: Node): Result<seq<Node>> {
    if n.Seq? then Ok(n.items) else if n.Map? && n.entries != [] then Err else Ok([])
  }

  function ElementsAt(es: Entries, k: Key): Result<seq<Node>> {
    var n := Get(es, k);
    if n.Some? then Elements(n.value) else Ok([])
  }

  function VerticesOf(sc: Scalars, ns: seq<Node>): Result<seq<Vertex>> {
    if ns == [] then Ok([])
    else
      var vs, v := VerticesOf(sc, ns[..|ns| - 1]), VertexOf(sc, ns[|ns| - 1]);
      if vs.Err? || v.Err? then Err else Ok(vs.value + [v.value])
  }

  function EdgesOf(sc: Scalars, ns: seq<Node>): Result<seq<Edge>> {
    if ns == [] then Ok([])
    else
      var es, e := EdgesOf(sc, ns[..|ns| - 1]), EdgeOf(sc, ns[|ns| - 1]);
      if es.Err? || e.Err? then Err else Ok(es.value + [e.value])
  }

  function FloorsOf(sc: Scalars, ns: seq<Node>): Result<seq<Floor>> {
    if ns == [] then Ok([])
    else
      var fs, f := FloorsOf(sc, ns[..|ns| - 1]), FloorOf(sc, ns[|ns| - 1]);
      if fs.Err? || f.Err? then Err else Ok(fs.value + [f.value])
  }

  function FiducialsOf(sc: Scalars, ns: seq<Node>): (r: seq<Fiducial>)
    ensures |r| == |ns|
  {
    seq(|ns|, i requires 0 <= i < |ns| => FiducialOf(sc, ns[i]))
  }

  function LayersOf(sc: Scalars, es: Entries): (r: seq<Layer>)
    ensures |r| == |es|
  {
    seq(|es|, i requires 0 <= i < |es| => LayerOf(sc, es[i].0, es[i].1))
  }

  function EdgesAt(sc: Scalars, es: Entries, k: Key): Result<seq<Edge>> {
    var ns := ElementsAt(es, k);
    if ns.Err? then Err else EdgesOf(sc, ns.value)
  }

  function VerticesAt(sc: Scalars, es: Entries): Result<seq<Vertex>> {
    var ns := ElementsAt(es, Vertices);
    if ns.Err? then Err else VerticesOf(sc, ns.value)
  }

  function DrawingOf(es: Entries): Result<string> {
    var d := Get(es, Drawing);
    if d.None? then Ok("") else if d.value.Scalar? then Err
    else if d.value.Map? then Ok(TextAt(d.value.entries, Filename)) else Ok("")
  }

  function EntriesAt(es: Entries, k: Key): Entries {
    var n := Get(es, k);
    if n.Some? && n.value.Map? then n.value.entries else []
  }

  /** A level node that is no mapping: a scalar cannot be looked up in, and a list with elements has
      no keys to go through. */
  function LevelOf(sc: Scalars, name: Key, n: Node): Result<Level> {
    if n.Scalar? || (n.Seq? && n.items != []) then Err
    else
      var es := if n.Map? then n.entries else [];
      var drawing := DrawingOf(es);
      var vertices := VerticesAt(sc, es);
      var lanes, walls, doors, ms := EdgesAt(sc, es, Lanes), EdgesAt(sc, es, Walls), EdgesAt(sc, es, Doors), EdgesAt(sc, es, Measurements);
      var floors := FloorsOf(sc, ItemsAt(es, Floors));
      if drawing.Err? || vertices.Err? || lanes.Err? || walls.Err? || doors.Err? || ms.Err? || floors.Err? then Err
      else
        Ok(Level(name, DoubleAt(sc, es, Elevation, ZERO), drawing.value, vertices.value, lanes.value, walls.value, doors.value,
                 ms.value, floors.value, FiducialsOf(sc, ItemsAt(es, Fiducials)), LayersOf(sc, EntriesAt(es, Layers)),
                 Map(Unknown(es, LEVEL_KEYS))))
  }

  function VertexNodes(sc: Scalars, vs: seq<Vertex>): (r: seq<Node>)
    ensures |r| == |vs|
  {
    seq(|vs|, i requires 0 <= i < |vs| => VertexNode(sc, vs[i]))
  }

  function EdgeNodes(sc: Scalars, es: seq<Edge>): (r: seq<Node>)
    ensures |r| == |es|
  {
    seq(|es|, i requires 0 <= i < |es| => EdgeNode(sc, es[i]))
  }

  function FloorNodes(sc: Scalars, fs: seq<Floor>): (r: seq<Node>)
    ensures |r| == |fs|
  {
    seq(|fs|, i requires 0 <= i < |fs| => FloorNode(sc, fs[i]))
  }

  function FiducialNodes(sc: Scalars, fs: seq<Fiducial>): (r: seq<Node>)
    ensures |r| == |fs|
  {
    seq(|fs|, i requires 0 <= i < |fs| => FiducialNode(sc, fs[i]))
  }

  function LayerPairs(sc: Scalars, ls: seq<Layer>): (r: Entries)
    ensures |r| == |ls|
  {
    seq(|ls|, i requires 0 <= i < |ls| => (ls[i].name, LayerNode(sc, ls[i])))
  }

  function LevelEntries(sc: Scalars, l: Level): Entries {
    var e0 := SetIf(Spliced(l.passthrough), l.drawing != "", Drawing, Map([(Filename, Scalar(l.drawing))]));
    var e1 := Set(e0, Elevation, DoubleNode(sc, l.elevation));
    var e2 := Set(e1, Vertices, Seq(VertexNodes(sc, l.vertices)));
    var e3 := Set(e2, Lanes, Seq(EdgeNodes(sc, l.lanes)));
    var e4 := SetIf(e3, l.walls != [], Walls, Seq(EdgeNodes(sc, l.walls)));
    var e5 := SetIf(e4, l.doors != [], Doors, Seq(EdgeNodes(sc, l.doors)));
    var e6 := SetIf(e5, l.measurements != [], Measurements, Seq(EdgeNodes(sc, l.measurements)));
    var e7 := SetIf(e6, l.floors != [], Floors, Seq(FloorNodes(sc, l.floors)));
    var e8 := SetIf(e7, l.fiducials != [], Fiducials, Seq(FiducialNodes(sc, l.fiducials)));
    SetIf(e8, l.layers != [], Layers, Map(SetAll(LayerPairs(sc, l.layers))))
  }

  function LevelNode(sc: Scalars, l: Level): Node {
    Map(LevelEntries(sc, l))
  }

  // ---------------------------------------------------------------- the building

  const BUILDING_KEYS := {Name, CoordinateSystem, ReferenceLevelName, Levels}

  function LevelsOf(sc: Scalars, es: Entries): Result<seq<Level>> {
    if es == [] then Ok([])
    else
      var ls, l := LevelsOf(sc, es[..|es| - 1]), LevelOf(sc, es[|es| - 1].0, es[|es| - 1].1);
      if ls.Err? || l.Err? then Err else Ok(ls.value + [l.value])
  }

  /** `parse_building` on the loaded tree, without the scale snapshot it ends with. */
  function BuildingOf(sc: Scalars, root: Node): Result<Building> {
    if !root.Map? then Err
    else
      var es := root.entries;
      var levels := LevelsOf(sc, EntriesAt(es, Levels));
      if levels.Err? then Err
      else
        Ok(Building(TextAt(es, Name), TextAt(es, CoordinateSystem), TextAt(es, ReferenceLevelName), levels.value,
                    Map(Unknown(es, BUILDING_KEYS))))
  }

  function LevelPairs(sc: Scalars, ls: seq<Level>): (r: Entries)
    ensures |r| == |ls|
  {
    seq(|ls|, i requires 0 <= i < |ls| => (ls[i].name, LevelNode(sc, ls[i])))
  }

  function BuildingEntries(sc: Scalars, b: Building): Entries {
    var e1 := SetIf(Spliced(b.passthrough), b.coordinates != "", CoordinateSystem, Scalar(b.coordinates));
    var e2 := SetIf(e1, b.reference != "", ReferenceLevelName, Scalar(b.reference));
    var e3 := Set(e2, Name, Scalar(b.name));
    Set(e3, Levels, Map(SetAll(LevelPairs(sc, b.levels))))
  }

  /** `serialize_building` up to the tree it emits. */
  function BuildingNode(sc: Scalars, b: Building): Node {
    Map(BuildingEntries(sc, b))
  }
}
