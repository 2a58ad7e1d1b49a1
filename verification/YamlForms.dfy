/** The forms of a map that printing does not write: entries cut short, optional keys left out, plain
    parameters, and where in an entry each value stands. */
module YamlForms {
  import opened YamlTree
  import opened YamlBuilding
  import opened YamlRoundTrip
  import opened YamlStable

  // ---------------------------------------------------------------- where the values stand

  /** A vertex is x, y, z, name and parameters, in this order; an edge its two ends and parameters; a fiducial
      x, y and name. */
  lemma EntriesLaidOut(sc: Scalars, v: Vertex, e: Edge, f: Fiducial)
    requires Lawful(sc)
    ensures var items := VertexNode(sc, v).items;
            && |items| == 5 && AsDouble(sc, items[0]) == Some(v.x) && AsDouble(sc, items[1]) == Some(v.y)
            && AsDouble(sc, items[2]) == Some(v.z) && AsText(items[3]) == Some(v.name) && items[4].Map?
    ensures var items := EdgeNode(sc, e).items;
            |items| == 3 && AsInt(sc, items[0]) == Some(e.start) && AsInt(sc, items[1]) == Some(e.end) && items[2].Map?
    ensures var items := FiducialNode(sc, f).items;
            |items| == 3 && AsDouble(sc, items[0]) == Some(f.x) && AsDouble(sc, items[1]) == Some(f.y) && AsText(items[2]) == Some(f.name)
  {
    hide ParamEntries, Telling;
  }

  /** A colour is red, green, blue and alpha; a place has its four numbers under their keys. */
  lemma ColourLaidOut(sc: Scalars, c: Colour)
    requires Lawful(sc)
    ensures var items := ColourNode(sc, c).items;
            && |items| == 4 && AsDouble(sc, items[0]) == Some(c.r) && AsDouble(sc, items[1]) == Some(c.g)
            && AsDouble(sc, items[2]) == Some(c.b) && AsDouble(sc, items[3]) == Some(c.a)
  {
  }

  lemma PlaceLaidOut(sc: Scalars, p: Place)
    ensures PlaceNode(sc, p).Map?
    ensures var es := PlaceNode(sc, p).entries;
            && Get(es, Scale) == Some(DoubleNode(sc, p.scale)) && Get(es, Yaw) == Some(DoubleNode(sc, p.yaw))
            && Get(es, TranslationX) == Some(DoubleNode(sc, p.x)) && Get(es, TranslationY) == Some(DoubleNode(sc, p.y))
  {
    hide Get, DoubleNode;
    var s, y, tx, ty := DoubleNode(sc, p.scale), DoubleNode(sc, p.yaw), DoubleNode(sc, p.x), DoubleNode(sc, p.y);
    var es := PlaceNode(sc, p).entries;
    assert es == [(Scale, s)] + ([(Yaw, y)] + ([(TranslationX, tx)] + [(TranslationY, ty)]));
    FourEntries(s, y, tx, ty, Scale);
    FourEntries(s, y, tx, ty, Yaw);
    FourEntries(s, y, tx, ty, TranslationX);
    FourEntries(s, y, tx, ty, TranslationY);
  }

  lemma FourEntries(s: Node, y: Node, tx: Node, ty: Node, k: Key)
    ensures Get([(Scale, s)] + ([(Yaw, y)] + ([(TranslationX, tx)] + [(TranslationY, ty)])), k)
         == if k == Scale then Some(s) else if k == Yaw then Some(y)
            else if k == TranslationX then Some(tx) else if k == TranslationY then Some(ty) else None
  {
    hide Get;
    GetFirst((Scale, s), [(Yaw, y)] + ([(TranslationX, tx)] + [(TranslationY, ty)]), k);
    GetFirst((Yaw, y), [(TranslationX, tx)] + [(TranslationY, ty)], k);
    GetFirst((TranslationX, tx), [(TranslationY, ty)], k);
    GetStep([(TranslationY, ty)], k);
  }

  // ---------------------------------------------------------------- parameters

  /** The type codes: 1 for a text, 2 for an integer, 3 for a double, 4 for a truth value; what follows is the
      value. */
  lemma ParamCodes(sc: Scalars, p: Param)
    requires Lawful(sc)
    ensures var items := ParamNode(sc, p).items;
            && |items| == 2 && AsInt(sc, items[0]) == Some(if p.PString? then 1 else if p.PInt? then 2 else if p.PDouble? then 3 else 4)
            && (p.PString? ==> AsText(items[1]) == Some(p.s)) && (p.PInt? ==> AsInt(sc, items[1]) == Some(p.i))
            && (p.PDouble? ==> AsDouble(sc, items[1]) == Some(p.d)) && (p.PBool? ==> AsBool(sc, items[1]) == Some(p.b))
  {
  }

  /** The older plain form: the first of truth value, integer and double that the text reads as, else the text. */
  lemma PlainParams(sc: Scalars, text: string)
    requires Lawful(sc)
    ensures ParamOf(sc, Scalar(text)).Ok?
    ensures var p := ParamOf(sc, Scalar(text)).value;
            && (p.PBool? <==> sc.readBool(text).Some?) && (p.PBool? ==> sc.readBool(text) == Some(p.b))
            && (p.PInt? <==> sc.readBool(text).None? && sc.readInt(text).Some?) && (p.PInt? ==> sc.readInt(text) == Some(p.i))
            && (p.PDouble? <==> sc.readBool(text).None? && sc.readInt(text).None? && sc.readDouble(text).Some?)
            && (p.PDouble? ==> sc.readDouble(text) == Some(p.d)) && (p.PString? ==> p.s == text)
    ensures forall b: bool :: text == sc.showBool(b) ==> ParamOf(sc, Scalar(text)) == Ok(PBool(b))
    ensures forall i: Int32 :: text == sc.showInt(i) && sc.readBool(text).None? ==> ParamOf(sc, Scalar(text)) == Ok(PInt(i))
  {
  }

  // ---------------------------------------------------------------- entries cut short

  /** A printed vertex cut short is that vertex with the parts cut off at their defaults; without both
      coordinates there is none. */
  lemma VertexShort(sc: Scalars, v: Vertex, n: nat)
    requires Lawful(sc) && n <= 4
    ensures var short := VertexOf(sc, Seq(VertexNode(sc, v).items[..n]));
            && (n < 2 ==> short.Err?)
            && (n == 2 ==> short == Ok(v.(z := ZERO, name := "", params := [])))
            && (n == 3 ==> short == Ok(v.(name := "", params := [])))
            && (n == 4 ==> short == Ok(v.(params := [])))
  {
    hide ParamEntries, Telling, ParamsAt;
    EntriesLaidOut(sc, v, Edge(0, 0, []), Fiducial(ZERO, ZERO, ""));
    var items := VertexNode(sc, v).items;
    assert forall i :: 0 <= i < n ==> items[..n][i] == items[i];
  }

  lemma EdgeShort(sc: Scalars, e: Edge, n: nat)
    requires Lawful(sc) && n <= 2
    ensures var short := EdgeOf(sc, Seq(EdgeNode(sc, e).items[..n]));
            (n < 2 ==> short.Err?) && (n == 2 ==> short == Ok(e.(params := [])))
  {
    hide ParamEntries, ParamsAt;
    var items := EdgeNode(sc, e).items;
    assert forall i :: 0 <= i < n ==> items[..n][i] == items[i];
  }

  /** A fiducial or a colour that is not whole is read as the default. */
  lemma OthersShort(sc: Scalars, f: Fiducial, n: nat, es: Entries, items: seq<Node>)
    requires n <= 2
    ensures FiducialOf(sc, Seq(FiducialNode(sc, f).items[..n])) == Fiducial(ZERO, ZERO, "")
    ensures (|items| < 4 && Get(es, Color) == Some(Seq(items))) || Get(es, Color) == None ==> ColourOf(sc, es) == Colour(ONE, ONE, ONE, HALF)
  {
    hide Get;
  }

  // ---------------------------------------------------------------- keys left out

  /** The mapping without the entries of this key. */
  function Without(es: Entries, k: Key): Entries {
    if es == [] then []
    else Without(es[..|es| - 1], k) + (if es[|es| - 1].0 == k then [] else [es[|es| - 1]])
  }

  lemma {:induction false} GetJoined(a: Entries, b: Entries, j: Key)
    ensures Get(a + b, j) == if Get(a, j).Some? then Get(a, j) else Get(b, j)
    decreases |a|
  {
    if a == [] {
      assert a + b == b;
    } else {
      assert (a + b)[0] == a[0] && (a + b)[1..] == a[1..] + b;
      GetJoined(a[1..], b, j);
    }
  }

  lemma {:induction false} GetWithout(es: Entries, k: Key, j: Key)
    ensures Get(Without(es, k), j) == if j == k then None else Get(es, j)
  {
    hide Get, Without;
    if es == [] {
      GetStep(es, j);
      WithoutStep(es, k);
    } else {
      var init, last := es[..|es| - 1], es[|es| - 1];
      GetWithout(init, k, j);
      GetLast(init, last, j);
      GetLast(Without(init, k), last, j);
      WithoutStep(es, k);
      assert es == init + [last];
    }
  }

  lemma GetLast(init: Entries, last: (Key, Node), j: Key)
    ensures Get(init + [last], j) == if Get(init, j).Some? then Get(init, j) else if last.0 == j then Some(last.1) else None
  {
    hide Get;
    GetJoined(init, [last], j);
    GetStep([last], j);
  }

  lemma WithoutStep(es: Entries, k: Key)
    ensures es == [] ==> Without(es, k) == []
    ensures es != [] ==>
              var init, last := es[..|es| - 1], es[|es| - 1];
              Without(es, k) == if last.0 == k then Without(init, k) else Without(init, k) + [last]
  {
    if es != [] {
      assert Without(es[..|es| - 1], k) + [] == Without(es[..|es| - 1], k);
    }
  }

  lemma {:induction false} UnknownWithout(es: Entries, known: set<Key>, k: Key)
    requires k in known
    ensures Unknown(Without(es, k), known) == Unknown(es, known)
  {
    if es != [] {
      var init, last := es[..|es| - 1], es[|es| - 1];
      UnknownWithout(init, known, k);
      var now := Without(es, k);
      if last.0 == k {
        assert now == Without(init, k);
      } else {
        assert now[..|now| - 1] == Without(init, k) && now[|now| - 1] == last;
      }
    }
  }

  function LayerDefault(l: Layer, k: Key): Layer {
    if k == Filename then l.(filename := "")
    else if k == Visible then l.(visible := true)
    else if k == Color then l.(color := Colour(ONE, ONE, ONE, HALF))
    else l.(place := Place(ONE, ZERO, ZERO, ZERO))
  }

  lemma LayerLess(sc: Scalars, l: Layer, k: Key)
    requires Lawful(sc) && NormalLayer(l) && k in LAYER_KEYS
    ensures var less := Without(LayerEntries(sc, l), k);
            && Get(less, Filename) == (if k == Filename then None else Some(Scalar(l.filename)))
            && Get(less, Visible) == (if k == Visible then None else Some(BoolNode(sc, l.visible)))
            && Get(less, Color) == (if k == Color then None else Some(ColourNode(sc, l.color)))
            && Get(less, Transform) == (if k == Transform then None else Some(PlaceNode(sc, l.place)))
            && Map(Unknown(less, LAYER_KEYS)) == l.passthrough
  {
    hide Get, LayerEntries, Unknown, Without, ColourNode, PlaceNode, BoolNode, Lawful, Unique, NoneOf;
    var es := LayerEntries(sc, l);
    LayerGets(sc, l);
    UnknownWithout(es, LAYER_KEYS, k);
    GetWithout(es, k, Filename);
    GetWithout(es, k, Visible);
    GetWithout(es, k, Color);
    GetWithout(es, k, Transform);
  }

  /** A printed layer with one of its keys taken out is that layer with the default there. */
  lemma LayerLacks(sc: Scalars, l: Layer, k: Key)
    requires Lawful(sc) && NormalLayer(l) && k in LAYER_KEYS
    ensures LayerOf(sc, l.name, Map(Without(LayerEntries(sc, l), k))) == LayerDefault(l, k)
  {
    hide Get, LayerEntries, Unknown, Without, ColourNode, PlaceNode, BoolNode, Lawful, TextAt, ColourOf, PlaceOf, LayerOf, VisibleOf,
         NormalLayer;
    var less := Without(LayerEntries(sc, l), k);
    LayerLess(sc, l, k);
    LayerIs(sc, l.name, less);
    LayerVisible(sc, less, l.visible);
    LayerTexts(less, l.filename);
    LayerColours(sc, less, l.color);
    LayerPlaces(sc, less, l.place);
  }

  function VisibleOf(sc: Scalars, es: Entries): bool {
    if Get(es, Visible).Some? then Or(AsBool(sc, Get(es, Visible).value), true) else true
  }

  lemma LayerIs(sc: Scalars, name: Key, es: Entries)
    ensures LayerOf(sc, name, Map(es))
         == Layer(name, TextAt(es, Filename), VisibleOf(sc, es), ColourOf(sc, es), PlaceOf(sc, es), Map(Unknown(es, LAYER_KEYS)))
  {
    hide Get, TextAt, ColourOf, PlaceOf, Unknown;
  }

  lemma LayerVisible(sc: Scalars, es: Entries, b: bool)
    requires Lawful(sc)
    ensures Get(es, Visible) == Some(BoolNode(sc, b)) ==> VisibleOf(sc, es) == b
    ensures Get(es, Visible) == None ==> VisibleOf(sc, es)
  {
    hide Get;
    BoolBack(sc, b);
  }

  lemma LayerTexts(es: Entries, text: string)
    ensures Get(es, Filename) == Some(Scalar(text)) ==> TextAt(es, Filename) == text
    ensures Get(es, Filename) == None ==> TextAt(es, Filename) == ""
  {
    hide Get;
  }

  lemma LayerColours(sc: Scalars, es: Entries, c: Colour)
    requires Lawful(sc)
    ensures Get(es, Color) == Some(ColourNode(sc, c)) ==> ColourOf(sc, es) == c
    ensures Get(es, Color) == None ==> ColourOf(sc, es) == Colour(ONE, ONE, ONE, HALF)
  {
    if Get(es, Color) == Some(ColourNode(sc, c)) { ColourBack(sc, c, es); }
    hide Get;
  }

  lemma LayerPlaces(sc: Scalars, es: Entries, p: Place)
    requires Lawful(sc)
    ensures Get(es, Transform) == Some(PlaceNode(sc, p)) ==> PlaceOf(sc, es) == p
    ensures Get(es, Transform) == None ==> PlaceOf(sc, es) == Place(ONE, ZERO, ZERO, ZERO)
  {
    hide Get, PlaceNode;
    if Get(es, Transform) == Some(PlaceNode(sc, p)) { PlaceAt(sc, p, es); }
  }

  function PlaceDefault(p: Place, k: Key): Place {
    if k == Scale then p.(scale := ONE) else if k == Yaw then p.(yaw := ZERO)
    else if k == TranslationX then p.(x := ZERO) else if k == TranslationY then p.(y := ZERO) else p
  }

  /** The same for the numbers of its place. */
  lemma PlaceLacks(sc: Scalars, es: Entries, p: Place, k: Key)
    requires Lawful(sc) && Get(es, Transform) == Some(Map(Without(PlaceNode(sc, p).entries, k)))
    ensures PlaceOf(sc, es) == PlaceDefault(p, k)
  {
    hide Get, Without, PlaceNode;
    PlaceLaidOut(sc, p);
    var ts := PlaceNode(sc, p).entries;
    GetWithout(ts, k, Scale);
    GetWithout(ts, k, Yaw);
    GetWithout(ts, k, TranslationX);
    GetWithout(ts, k, TranslationY);
  }

  function LevelDefault(l: Level, k: Key): Level {
    if k == Elevation then l.(elevation := ZERO) else if k == Drawing then l.(drawing := "")
    else if k == Vertices then l.(vertices := []) else if k == Lanes then l.(lanes := [])
    else if k == Walls then l.(walls := []) else if k == Doors then l.(doors := [])
    else if k == Measurements then l.(measurements := []) else if k == Floors then l.(floors := [])
    else if k == Fiducials then l.(fiducials := []) else l.(layers := [])
  }

  lemma DefaultNormal(sc: Scalars, l: Level, k: Key)
    requires NormalLevel(sc, l)
    ensures NormalLevel(sc, LevelDefault(l, k))
  {
    hide NormalVertex, NormalFloor, PlainFloor, NormalLayer, Passes, Rising;
  }

  /** What taking a key out leaves of another key, or of itself. */
  lemma MayWithout(es: Entries, k: Key, c: bool, j: Key, v: Node, none: bool, w: Node)
    requires Has(es, c, j, v) && if j == k then none else w == v && (c || none)
    ensures May(Without(es, k), none, j, w)
  {
    hide Get, Without;
    GetWithout(es, k, j);
  }

  lemma DefaultHead(sc: Scalars, l: Level, k: Key, es: Entries)
    requires LevelHas(sc, l, es) && k in LEVEL_KEYS
    ensures var d, less := LevelDefault(l, k), Without(es, k);
            && May(less, d.drawing == "", Drawing, Map([(Filename, Scalar(d.drawing))]))
            && May(less, d.elevation == ZERO, Elevation, DoubleNode(sc, d.elevation))
            && May(less, d.vertices == [], Vertices, Seq(VertexNodes(sc, d.vertices)))
  {
    hide Has, May, Without, VertexNodes, EdgeNodes, FloorNodes, FiducialNodes, LayerPairs, SetAll, DoubleNode, LevelDefault;
    DefaultFields(l, k);
    var d := LevelDefault(l, k);
    MayWithout(es, k, l.drawing != "", Drawing, Map([(Filename, Scalar(l.drawing))]), d.drawing == "", Map([(Filename, Scalar(d.drawing))]));
    MayWithout(es, k, true, Elevation, DoubleNode(sc, l.elevation), d.elevation == ZERO, DoubleNode(sc, d.elevation));
    MayWithout(es, k, true, Vertices, Seq(VertexNodes(sc, l.vertices)), d.vertices == [], Seq(VertexNodes(sc, d.vertices)));
  }

  lemma DefaultEdges(sc: Scalars, l: Level, k: Key, es: Entries)
    requires LevelHas(sc, l, es) && k in LEVEL_KEYS
    ensures var d, less := LevelDefault(l, k), Without(es, k);
            && May(less, d.lanes == [], Lanes, Seq(EdgeNodes(sc, d.lanes)))
            && May(less, d.walls == [], Walls, Seq(EdgeNodes(sc, d.walls)))
            && May(less, d.doors == [], Doors, Seq(EdgeNodes(sc, d.doors)))
            && May(less, d.measurements == [], Measurements, Seq(EdgeNodes(sc, d.measurements)))
  {
    hide Has, May, Without, VertexNodes, EdgeNodes, FloorNodes, FiducialNodes, LayerPairs, SetAll, DoubleNode, LevelDefault;
    DefaultFields(l, k);
    var d := LevelDefault(l, k);
    MayWithout(es, k, true, Lanes, Seq(EdgeNodes(sc, l.lanes)), d.lanes == [], Seq(EdgeNodes(sc, d.lanes)));
    MayWithout(es, k, l.walls != [], Walls, Seq(EdgeNodes(sc, l.walls)), d.walls == [], Seq(EdgeNodes(sc, d.walls)));
    MayWithout(es, k, l.doors != [], Doors, Seq(EdgeNodes(sc, l.doors)), d.doors == [], Seq(EdgeNodes(sc, d.doors)));
    MayWithout(es, k, l.measurements != [], Measurements, Seq(EdgeNodes(sc, l.measurements)), d.measurements == [], Seq(EdgeNodes(sc, d.measurements)));
  }

  lemma DefaultRest(sc: Scalars, l: Level, k: Key, es: Entries)
    requires LevelHas(sc, l, es) && k in LEVEL_KEYS
    ensures var d, less := LevelDefault(l, k), Without(es, k);
            && May(less, d.floors == [], Floors, Seq(FloorNodes(sc, d.floors)))
            && May(less, d.fiducials == [], Fiducials, Seq(FiducialNodes(sc, d.fiducials)))
            && May(less, d.layers == [], Layers, Map(SetAll(LayerPairs(sc, d.layers))))
  {
    hide Has, May, Without, VertexNodes, EdgeNodes, FloorNodes, FiducialNodes, LayerPairs, SetAll, DoubleNode, LevelDefault;
    DefaultFields(l, k);
    var d := LevelDefault(l, k);
    MayWithout(es, k, l.floors != [], Floors, Seq(FloorNodes(sc, l.floors)), d.floors == [], Seq(FloorNodes(sc, d.floors)));
    MayWithout(es, k, l.fiducials != [], Fiducials, Seq(FiducialNodes(sc, l.fiducials)), d.fiducials == [], Seq(FiducialNodes(sc, d.fiducials)));
    MayWithout(es, k, l.layers != [], Layers, Map(SetAll(LayerPairs(sc, l.layers))), d.layers == [], Map(SetAll(LayerPairs(sc, d.layers))));
  }

  /** Taking the key out of what the level printed leaves what the level without it stands for. */
  lemma DefaultIn(sc: Scalars, l: Level, k: Key)
    requires Passes(l.passthrough, LEVEL_KEYS) && k in LEVEL_KEYS
    ensures LevelIn(sc, LevelDefault(l, k), Without(LevelEntries(sc, l), k))
  {
    hide May, Without, LevelHas, LevelEntries, VertexNodes, EdgeNodes, FloorNodes, FiducialNodes, LayerPairs, SetAll, DoubleNode, LevelDefault;
    var es := LevelEntries(sc, l);
    LevelHasAll(sc, l);
    DefaultHead(sc, l, k, es);
    DefaultEdges(sc, l, k, es);
    DefaultRest(sc, l, k, es);
  }

  lemma DefaultFields(l: Level, k: Key)
    requires k in LEVEL_KEYS
    ensures var d := LevelDefault(l, k);
            && d.drawing == (if k == Drawing then "" else l.drawing) && d.elevation == (if k == Elevation then ZERO else l.elevation)
            && d.vertices == (if k == Vertices then [] else l.vertices) && d.lanes == (if k == Lanes then [] else l.lanes)
            && d.walls == (if k == Walls then [] else l.walls) && d.doors == (if k == Doors then [] else l.doors)
            && d.measurements == (if k == Measurements then [] else l.measurements)
            && d.floors == (if k == Floors then [] else l.floors)
            && d.fiducials == (if k == Fiducials then [] else l.fiducials) && d.layers == (if k == Layers then [] else l.layers)
  {
  }

  /** A printed level with one of its keys taken out is that level with the default there. */
  lemma LevelLacks(sc: Scalars, l: Level, k: Key)
    requires Lawful(sc) && NormalLevel(sc, l) && k in LEVEL_KEYS
    ensures LevelOf(sc, l.name, Map(Without(LevelEntries(sc, l), k))) == Ok(LevelDefault(l, k))
  {
    hide LevelOf, LevelIn, LevelEntries, Without, Unknown, Lawful, Get, LevelDefault, NormalFloors, PlainLevel, Passes, FloorsAgain;
    var d, es := LevelDefault(l, k), Without(LevelEntries(sc, l), k);
    DefaultNormal(sc, l, k);
    LevelPasses(sc, l);
    DefaultKeeps(l, k);
    DefaultIn(sc, l, k);
    LevelUnknown(sc, l);
    UnknownWithout(LevelEntries(sc, l), LEVEL_KEYS, k);
    FloorsSame(sc, d.floors);
    LevelReads(sc, d, es);
  }

  lemma LevelPasses(sc: Scalars, l: Level)
    requires PlainLevel(sc, l)
    ensures Passes(l.passthrough, LEVEL_KEYS) && l.passthrough.Map?
  {
    hide NormalVertex, NormalEdges, PlainFloors, DistinctLayers, NormalLayer;
  }

  lemma DefaultKeeps(l: Level, k: Key)
    ensures LevelDefault(l, k).name == l.name && LevelDefault(l, k).passthrough == l.passthrough
  {
  }

  function BuildingDefault(b: Building, k: Key): Building {
    if k == Name then b.(name := "") else if k == CoordinateSystem then b.(coordinates := "")
    else if k == ReferenceLevelName then b.(reference := "") else b.(levels := [])
  }

  /** The same for a building. */
  lemma BuildingLacks(sc: Scalars, b: Building, k: Key)
    requires Lawful(sc) && NormalBuilding(sc, b) && k in BUILDING_KEYS
    ensures BuildingOf(sc, Map(Without(BuildingEntries(sc, b), k))) == Ok(BuildingDefault(b, k))
  {
    hide Get, Without, BuildingEntries, Unknown, Lawful, LevelPairs, SetAll, LevelsOf, TextAt, PlainLevels, NormalLevels, DistinctLevels,
         EntriesAt, LevelsAgain;
    var es := BuildingEntries(sc, b);
    var less := Without(es, k);
    BuildingHasAll(sc, b);
    BuildingUnknown(sc, b);
    UnknownWithout(es, BUILDING_KEYS, k);
    LevelsSame(sc, b.levels);
    NoLevels(sc);
    GetWithout(es, k, Name);
    GetWithout(es, k, CoordinateSystem);
    GetWithout(es, k, ReferenceLevelName);
    GetWithout(es, k, Levels);
    TextIn(less, Name, b.name);
    TextIn(less, CoordinateSystem, b.coordinates);
    TextIn(less, ReferenceLevelName, b.reference);
    if k != Levels { LevelsAtBack(sc, b, less); } else { NothingAt(less, Levels); }
  }

  lemma NoLevels(sc: Scalars)
    ensures LevelsOf(sc, []) == Ok([])
  {
  }

  lemma NothingAt(es: Entries, k: Key)
    requires Get(es, k) == None
    ensures EntriesAt(es, k) == []
  {
  }

  lemma TextIn(es: Entries, k: Key, text: string)
    ensures Get(es, k) == Some(Scalar(text)) ==> TextAt(es, k) == text
    ensures Get(es, k) == None ==> TextAt(es, k) == ""
  {
    hide Get;
  }

  function FloorDefault(f: Floor, k: Key): Floor {
    if k == Vertices then f.(vertices := []) else if k == Parameters then f.(params := []) else f.(holes := [])
  }

  /** The same for a floor; its holes can only be taken out if it has any of its own. */
  lemma FloorLacks(sc: Scalars, f: Floor, k: Key)
    requires Lawful(sc) && NormalFloor(sc, f) && k in HOLED_KEYS && (k == Holes ==> f.holes != [])
    ensures FloorOf(sc, Map(Without(FloorEntries(sc, f), k))) == Ok(FloorDefault(f, k))
  {
    hide Get, FloorEntries, Without, Unknown, Typed, IntsOf, IntNodes, LoopsOf, LoopNodes, ParamsOf, ParamEntries, ParamPairs, Rising;
    var es := FloorEntries(sc, f);
    var less := Without(es, k);
    FloorGets(sc, f);
    FloorUnknown(sc, f, HOLED_KEYS);
    UnknownWithout(es, HOLED_KEYS, k);
    if f.holes == [] {
      FloorUnknown(sc, f, FLOOR_KEYS);
      UnknownWithout(es, FLOOR_KEYS, k);
    }
    PassesSpliced(f.passthrough, if f.holes != [] then HOLED_KEYS else FLOOR_KEYS);
    GetWithout(es, k, Vertices);
    GetWithout(es, k, Parameters);
    GetWithout(es, k, Holes);
    if k == Holes { UnknownNarrow(less); }
    IntsBack(sc, f.vertices);
    LoopsBack(sc, f.holes);
    PrintsParams(sc, f.params);
    ParamsBack(sc, f.params);
    IntsNone(sc);
  }

  lemma IntsNone(sc: Scalars)
    ensures IntsOf(sc, []) == []
  {
  }

  lemma {:induction false} UnknownNarrow(es: Entries)
    requires Get(es, Holes) == None
    ensures Unknown(es, FLOOR_KEYS) == Unknown(es, HOLED_KEYS)
  {
    GetLacks(es, Holes);
    UnknownAlike(es);
  }

  lemma {:induction false} UnknownAlike(es: Entries)
    requires Lacks(es, Holes)
    ensures Unknown(es, FLOOR_KEYS) == Unknown(es, HOLED_KEYS)
  {
    if es != [] {
      UnknownAlike(es[..|es| - 1]);
    }
  }

  // ---------------------------------------------------------------- holes

  /** Something under `holes` that is no list of lists of scalars. */
  ghost predicate OddHoles(h: Node) {
    !h.Seq? || exists i :: 0 <= i < |h.items| && OddLoop(h.items[i])
  }

  ghost predicate OddLoop(loop: Node) {
    !loop.Seq? || exists j :: 0 <= j < |loop.items| && !loop.items[j].Scalar?
  }

  lemma OddIsUntyped(h: Node)
    ensures OddHoles(h) <==> !Typed(h)
  {
    if h.Seq? {
      forall i | 0 <= i < |h.items| && OddLoop(h.items[i]) ensures !Typed(h) {
        var loop := h.items[i];
        assert loop in h.items;
        if loop.Seq? {
          var j :| 0 <= j < |loop.items| && !loop.items[j].Scalar?;
          assert loop.items[j] in loop.items;
        }
      }
    }
  }

  /** Lists of integers become the floor's holes; anything that is no list of lists of scalars is none of
      them and comes out as it was. */
  lemma HolesRead(sc: Scalars, es: Entries, loops: seq<seq<Int32>>)
    requires Lawful(sc) && FloorOf(sc, Map(es)).Ok?
    ensures var f := FloorOf(sc, Map(es)).value;
            && (Get(es, Holes) == Some(Seq(LoopNodes(sc, loops))) ==> f.holes == loops)
            && (Get(es, Holes).Some? && OddHoles(Get(es, Holes).value) ==> f.holes == [] && Get(FloorEntries(sc, f), Holes) == Last(es, Holes))
  {
    hide LoopNodes, LoopsOf, Typed, OddHoles, Unknown, FloorEntries, ParamsAt, IntsOf, Last;
    LoopsBack(sc, loops);
    if Get(es, Holes).Some? {
      OddIsUntyped(Get(es, Holes).value);
    }
    if !HolesTyped(es) {
      FloorKeepsUnknown(sc, Map(es), Holes);
    }
  }

  // ---------------------------------------------------------------- values that cannot be read

  /** A value that is there but is not of its kind counts as the default of its place; only the two coordinates
      of a vertex and the two ends of an edge must be numbers. */
  lemma VertexUnread(sc: Scalars, items: seq<Node>)
    requires |items| >= 2
    ensures var r := VertexOf(sc, Seq(items));
            && (AsDouble(sc, items[0]).None? || AsDouble(sc, items[1]).None? ==> r.Err?)
            && (r.Ok? && |items| >= 3 && AsDouble(sc, items[2]).None? ==> r.value.z == ZERO)
            && (r.Ok? && |items| >= 4 && AsText(items[3]).None? ==> r.value.name == "")
            && (r.Ok? && |items| >= 5 && !items[4].Map? ==> r.value.params == [])
    ensures var r := EdgeOf(sc, Seq(items));
            && (AsInt(sc, items[0]).None? || AsInt(sc, items[1]).None? ==> r.Err?)
            && (r.Ok? && |items| >= 3 && !items[2].Map? ==> r.value.params == [])
  {
  }

  lemma FiducialUnread(sc: Scalars, items: seq<Node>)
    requires |items| >= 3
    ensures var f := FiducialOf(sc, Seq(items));
            && (AsDouble(sc, items[0]).None? ==> f.x == ZERO) && (AsDouble(sc, items[1]).None? ==> f.y == ZERO)
            && (AsText(items[2]).None? ==> f.name == "")
  {
  }

  lemma LayerUnread(sc: Scalars, name: Key, es: Entries)
    ensures var l := LayerOf(sc, name, Map(es));
            && (forall v :: Get(es, Filename) == Some(v) && AsText(v).None? ==> l.filename == "")
            && (forall v :: Get(es, Visible) == Some(v) && AsBool(sc, v).None? ==> l.visible)
            && (forall v :: Get(es, Transform) == Some(v) && !v.Map? ==> l.place == Place(ONE, ZERO, ZERO, ZERO))
            && (forall v :: Get(es, Color) == Some(v) && !v.Seq? ==> l.color == Colour(ONE, ONE, ONE, HALF))
    ensures forall n: Node :: !n.Map? ==> LayerOf(sc, name, n) == Layer(name, "", true, Colour(ONE, ONE, ONE, HALF), Place(ONE, ZERO, ZERO, ZERO), Null)
  {
    hide Get;
  }

  lemma ColourUnread(sc: Scalars, es: Entries, items: seq<Node>)
    requires Get(es, Color) == Some(Seq(items)) && |items| >= 4
    ensures var c := ColourOf(sc, es);
            && (AsDouble(sc, items[0]).None? ==> c.r == ONE) && (AsDouble(sc, items[1]).None? ==> c.g == ONE)
            && (AsDouble(sc, items[2]).None? ==> c.b == ONE) && (AsDouble(sc, items[3]).None? ==> c.a == HALF)
  {
    hide Get;
  }

  lemma PlaceUnread(sc: Scalars, es: Entries, ts: Entries, v: Node)
    requires Get(es, Transform) == Some(Map(ts)) && AsDouble(sc, v).None?
    ensures var p := PlaceOf(sc, es);
            && (Get(ts, Scale) == Some(v) ==> p.scale == ONE) && (Get(ts, Yaw) == Some(v) ==> p.yaw == ZERO)
            && (Get(ts, TranslationX) == Some(v) ==> p.x == ZERO) && (Get(ts, TranslationY) == Some(v) ==> p.y == ZERO)
  {
    hide Get;
  }

  /** A typed parameter whose value cannot be read is the zero of its type; an unknown code is a text. */
  lemma ParamUnread(sc: Scalars, items: seq<Node>, code: Int32)
    requires |items| >= 2 && AsInt(sc, items[0]) == Some(code)
    ensures var r := ParamOf(sc, Seq(items));
            && r.Ok?
            && (code == 2 && AsInt(sc, items[1]).None? ==> r.value == PInt(0))
            && (code == 3 && AsDouble(sc, items[1]).None? ==> r.value == PDouble(ZERO))
            && (code == 4 && AsBool(sc, items[1]).None? ==> r.value == PBool(false))
            && (code !in {2, 3, 4} ==> r.value == PString(Or(AsText(items[1]), "")))
  {
  }

  /** What makes a level unreadable, whatever else it has: to be no mapping but something, a drawing that is a
      bare text, a list that is a mapping with entries, and a vertex or edge that cannot be read. */
  lemma LevelRefused(sc: Scalars, name: Key, n: Node)
    requires n.Scalar? || (n.Seq? && n.items != []) || (n.Map? && exists text :: Get(n.entries, Drawing) == Some(Scalar(text)))
    ensures LevelOf(sc, name, n).Err?
  {
    hide Get;
  }

  lemma ListRefused(sc: Scalars, name: Key, es: Entries, k: Key, inner: Entries)
    requires k in {Vertices, Lanes, Walls, Doors, Measurements} && Get(es, k) == Some(Map(inner)) && inner != []
    ensures LevelOf(sc, name, Map(es)).Err?
  {
    hide Get;
  }

  lemma VertexRefused(sc: Scalars, name: Key, es: Entries, items: seq<Node>, i: nat)
    requires Get(es, Vertices) == Some(Seq(items)) && i < |items| && VertexOf(sc, items[i]).Err?
    ensures LevelOf(sc, name, Map(es)).Err?
  {
    hide Get, VertexOf, VerticesOf;
    VerticesRefused(sc, items, i);
  }

  lemma EdgeRefused(sc: Scalars, name: Key, es: Entries, k: Key, items: seq<Node>, i: nat)
    requires k in {Lanes, Walls, Doors, Measurements} && Get(es, k) == Some(Seq(items)) && i < |items| && EdgeOf(sc, items[i]).Err?
    ensures LevelOf(sc, name, Map(es)).Err?
  {
    hide Get, EdgeOf, EdgesOf;
    EdgesRefused(sc, items, i);
  }

  lemma {:induction false} VerticesRefused(sc: Scalars, ns: seq<Node>, i: nat)
    requires i < |ns| && VertexOf(sc, ns[i]).Err?
    ensures VerticesOf(sc, ns).Err?
    decreases |ns|
  {
    hide VertexOf;
    if i < |ns| - 1 { VerticesRefused(sc, ns[..|ns| - 1], i); }
  }

  lemma {:induction false} EdgesRefused(sc: Scalars, ns: seq<Node>, i: nat)
    requires i < |ns| && EdgeOf(sc, ns[i]).Err?
    ensures EdgesOf(sc, ns).Err?
    decreases |ns|
  {
    hide EdgeOf;
    if i < |ns| - 1 { EdgesRefused(sc, ns[..|ns| - 1], i); }
  }
}
