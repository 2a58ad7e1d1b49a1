/** Whole buildings: parsing what was printed gives the building back, and printing what was parsed
    settles at once. */
module YamlStable {
  import opened YamlTree
  import opened YamlBuilding
  import opened YamlRoundTrip

  ghost predicate DistinctLevels(ls: seq<Level>) {
    forall i, j :: 0 <= i < j < |ls| ==> ls[i].name != ls[j].name
  }

  ghost predicate NormalLevels(sc: Scalars, ls: seq<Level>) {
    forall l :: l in ls ==> NormalLevel(sc, l)
  }

  ghost predicate NormalBuilding(sc: Scalars, b: Building) {
    PlainBuilding(sc, b) && NormalLevels(sc, b.levels)
  }

  ghost predicate PlainLevels(sc: Scalars, ls: seq<Level>) {
    forall l :: l in ls ==> PlainLevel(sc, l)
  }

  /** A building as parsing and printing leave it. */
  ghost predicate PlainBuilding(sc: Scalars, b: Building) {
    && DistinctLevels(b.levels) && PlainLevels(sc, b.levels)
    && Passes(b.passthrough, BUILDING_KEYS)
  }

  function LevelsAgain(sc: Scalars, ls: seq<Level>): (r: seq<Level>)
    ensures |r| == |ls|
  {
    seq(|ls|, i requires 0 <= i < |ls| => LevelAgain(sc, ls[i]))
  }

  /** What parsing makes of a printed building: holes that were only passed through become the floors'. */
  function BuildingAgain(sc: Scalars, b: Building): Building {
    b.(levels := LevelsAgain(sc, b.levels))
  }

  lemma LevelsSame(sc: Scalars, ls: seq<Level>)
    requires NormalLevels(sc, ls)
    ensures PlainLevels(sc, ls) && LevelsAgain(sc, ls) == ls
  {
    forall i | 0 <= i < |ls| ensures LevelAgain(sc, ls[i]) == ls[i] {
      assert NormalLevel(sc, ls[i]);
      FloorsSame(sc, ls[i].floors);
    }
    hide LevelAgain, PlainLevel;
  }

  lemma LevelsSplit(sc: Scalars, ls: seq<Level>)
    requires ls != [] && PlainLevels(sc, ls)
    ensures var init, last := ls[..|ls| - 1], ls[|ls| - 1];
            && PlainLevels(sc, init) && PlainLevel(sc, last) && ls == init + [last]
            && LevelPairs(sc, ls) == LevelPairs(sc, init) + [(last.name, LevelNode(sc, last))]
            && LevelsAgain(sc, ls) == LevelsAgain(sc, init) + [LevelAgain(sc, last)]
  {
    hide PlainLevel, LevelNode, LevelAgain;
  }

  lemma LevelsMore(sc: Scalars, es: Entries, k: Key, n: Node)
    requires LevelsOf(sc, es).Ok? && LevelOf(sc, k, n).Ok?
    ensures LevelsOf(sc, es + [(k, n)]) == Ok(LevelsOf(sc, es).value + [LevelOf(sc, k, n).value])
  {
    hide LevelOf;
    var all := es + [(k, n)];
    assert all[..|all| - 1] == es;
  }

  lemma {:induction false} LevelsReread(sc: Scalars, ls: seq<Level>)
    requires Lawful(sc) && PlainLevels(sc, ls)
    ensures LevelsOf(sc, LevelPairs(sc, ls)) == Ok(LevelsAgain(sc, ls))
  {
    if ls == [] {
      assert LevelPairs(sc, ls) == [] && LevelsAgain(sc, ls) == [];
    } else {
      LevelsSplit(sc, ls);
      hide LevelOf, LevelNode, PlainLevels, PlainLevel, Lawful, LevelPairs, LevelsOf, LevelAgain, LevelsAgain;
      var init, last := ls[..|ls| - 1], ls[|ls| - 1];
      LevelsReread(sc, init);
      LevelReread(sc, last);
      LevelsMore(sc, LevelPairs(sc, init), last.name, LevelNode(sc, last));
    }
  }

  function BuildingPuts(sc: Scalars, b: Building): (ps: seq<Put>)
    ensures |ps| == 4
  {
    [Put(b.coordinates != "", CoordinateSystem, Scalar(b.coordinates)),
     Put(b.reference != "", ReferenceLevelName, Scalar(b.reference)),
     Put(true, Name, Scalar(b.name)),
     Put(true, Levels, Map(SetAll(LevelPairs(sc, b.levels))))]
  }

  lemma BuildingIsPuts(sc: Scalars, b: Building)
    ensures BuildingEntries(sc, b) == Puts(Spliced(b.passthrough), BuildingPuts(sc, b))
  {
    var ps, es := BuildingPuts(sc, b), Spliced(b.passthrough);
    hide Set, Puts, LevelPairs, SetAll, Spliced;
    PutsNone(es, ps);
    PutsNext(es, ps, 0);
    PutsNext(es, ps, 1);
    PutsNext(es, ps, 2);
    PutsNext(es, ps, 3);
    assert ps[..4] == ps;
  }

  lemma BuildingPutsApart(sc: Scalars, b: Building)
    ensures Apart(BuildingPuts(sc, b)) && forall j :: 0 <= j < 4 ==> BuildingPuts(sc, b)[j].k in BUILDING_KEYS
  {
    hide LevelPairs, SetAll;
  }

  lemma BuildingGets(sc: Scalars, b: Building, i: nat)
    requires Passes(b.passthrough, BUILDING_KEYS) && i < 4
    ensures HasPut(BuildingEntries(sc, b), BuildingPuts(sc, b)[i])
  {
    PassesSpliced(b.passthrough, BUILDING_KEYS);
    BuildingPutsApart(sc, b);
    BuildingIsPuts(sc, b);
    hide Get, BuildingEntries, Puts, BuildingPuts, Spliced, Unknown;
    GetPuts(Spliced(b.passthrough), BuildingPuts(sc, b), i);
  }

  lemma BuildingUnknown(sc: Scalars, b: Building)
    requires Passes(b.passthrough, BUILDING_KEYS)
    ensures Unknown(BuildingEntries(sc, b), BUILDING_KEYS) == b.passthrough.entries
  {
    PassesSpliced(b.passthrough, BUILDING_KEYS);
    BuildingPutsApart(sc, b);
    BuildingIsPuts(sc, b);
    hide Get, BuildingEntries, Puts, BuildingPuts, Spliced, Unknown;
    UnknownPuts(Spliced(b.passthrough), BuildingPuts(sc, b), BUILDING_KEYS);
  }

  /** What the printed building has under each of its keys. */
  ghost predicate BuildingHas(sc: Scalars, b: Building, es: Entries) {
    && Has(es, b.coordinates != "", CoordinateSystem, Scalar(b.coordinates))
    && Has(es, b.reference != "", ReferenceLevelName, Scalar(b.reference))
    && Has(es, true, Name, Scalar(b.name))
    && Has(es, true, Levels, Map(SetAll(LevelPairs(sc, b.levels))))
  }

  lemma BuildingHasAll(sc: Scalars, b: Building)
    requires Passes(b.passthrough, BUILDING_KEYS)
    ensures BuildingHas(sc, b, BuildingEntries(sc, b))
  {
    var es, ps := BuildingEntries(sc, b), BuildingPuts(sc, b);
    forall i | 0 <= i < 4 ensures HasPut(es, ps[i]) {
      BuildingGets(sc, b, i);
    }
    hide Has, BuildingEntries, LevelPairs, SetAll;
    assert HasPut(es, ps[0]) && HasPut(es, ps[1]) && HasPut(es, ps[2]) && HasPut(es, ps[3]);
  }

  lemma TextAtHas(es: Entries, k: Key, text: string)
    requires Has(es, text != "", k, Scalar(text)) || Has(es, true, k, Scalar(text))
    ensures TextAt(es, k) == text
  {
    hide Get;
  }

  lemma PairsUnique(sc: Scalars, ls: seq<Level>)
    requires DistinctLevels(ls)
    ensures Unique(LevelPairs(sc, ls))
  {
    hide LevelNode;
  }

  lemma LevelsAtBack(sc: Scalars, b: Building, es: Entries)
    requires Lawful(sc) && PlainBuilding(sc, b) && Has(es, true, Levels, Map(SetAll(LevelPairs(sc, b.levels))))
    ensures LevelsOf(sc, EntriesAt(es, Levels)) == Ok(LevelsAgain(sc, b.levels))
  {
    LevelsReread(sc, b.levels);
    PairsUnique(sc, b.levels);
    hide LevelPairs, Get, LevelsOf, PlainLevels, DistinctLevels, Lawful, SetAll, LevelsAgain;
    SetAllSelf(LevelPairs(sc, b.levels));
  }

  lemma BuildingReads(sc: Scalars, b: Building, es: Entries)
    requires Lawful(sc) && PlainBuilding(sc, b) && BuildingHas(sc, b, es) && Unknown(es, BUILDING_KEYS) == b.passthrough.entries
    ensures BuildingOf(sc, Map(es)) == Ok(BuildingAgain(sc, b))
  {
    hide LevelPairs, PlainLevels, DistinctLevels, LevelsAgain, SetAll, Unknown, LevelsOf, EntriesAt, Get, Has, Lawful, TextAt;
    LevelsAtBack(sc, b, es);
    TextAtHas(es, CoordinateSystem, b.coordinates);
    TextAtHas(es, ReferenceLevelName, b.reference);
    TextAtHas(es, Name, b.name);
  }

  lemma BuildingReread(sc: Scalars, b: Building)
    requires Lawful(sc) && PlainBuilding(sc, b)
    ensures BuildingOf(sc, BuildingNode(sc, b)) == Ok(BuildingAgain(sc, b))
  {
    BuildingHasAll(sc, b);
    BuildingUnknown(sc, b);
    hide BuildingEntries, BuildingHas, BuildingOf, BuildingAgain, Unknown, Lawful;
    BuildingReads(sc, b, BuildingEntries(sc, b));
  }

  /** Parsing the printed building gives the building, for every normal one. */
  lemma BuildingBack(sc: Scalars, b: Building)
    requires Lawful(sc) && NormalBuilding(sc, b)
    ensures BuildingOf(sc, BuildingNode(sc, b)) == Ok(b)
  {
    LevelsSame(sc, b.levels);
    hide BuildingNode, BuildingOf, Lawful;
    BuildingReread(sc, b);
  }

  // ---------------------------------------------------------------- what printing settles on

  /** A mapping with every value turned into a node. */
  function Mapped<T>(es: seq<(Key, T)>, f: T -> Node): (r: Entries)
    ensures |r| == |es|
  {
    seq(|es|, i requires 0 <= i < |es| => (es[i].0, f(es[i].1)))
  }

  lemma {:induction false} MappedSet<T>(es: seq<(Key, T)>, f: T -> Node, k: Key, v: T)
    ensures Mapped(Set(es, k, v), f) == Set(Mapped(es, f), k, f(v))
    decreases |es|
  {
    var ns := Mapped(es, f);
    if es != [] {
      assert ns[1..] == Mapped(es[1..], f);
      MappedSet(es[1..], f, k, v);
      SetStep(es, k, v);
      SetStep(ns, k, f(v));
      var now := Set(es, k, v);
      assert now[1..] == if es[0].0 == k then es[1..] else Set(es[1..], k, v);
      assert Mapped(now, f) == [(now[0].0, f(now[0].1))] + Mapped(now[1..], f);
    }
  }

  lemma {:induction false} MappedSetAll<T>(kvs: seq<(Key, T)>, f: T -> Node)
    ensures Mapped(SetAll(kvs), f) == SetAll(Mapped(kvs, f))
  {
    if kvs != [] {
      var init, last := kvs[..|kvs| - 1], kvs[|kvs| - 1];
      MappedSetAll(init, f);
      MappedSet(SetAll(init), f, last.0, last.1);
      assert Mapped(kvs, f)[..|kvs| - 1] == Mapped(init, f);
      hide Set;
    }
  }

  function Values<T>(es: seq<(Key, T)>): (r: seq<T>)
    ensures |r| == |es|
  {
    seq(|es|, i requires 0 <= i < |es| => es[i].1)
  }

  function NamedLayers(ls: seq<Layer>): (r: seq<(Key, Layer)>)
    ensures |r| == |ls|
  {
    seq(|ls|, i requires 0 <= i < |ls| => (ls[i].name, ls[i]))
  }

  function NamedLevels(ls: seq<Level>): (r: seq<(Key, Level)>)
    ensures |r| == |ls|
  {
    seq(|ls|, i requires 0 <= i < |ls| => (ls[i].name, ls[i]))
  }

  /** The pairs of assignments: each one of the list, the keys not repeated. */
  lemma {:induction false} SetAllFrom<T>(kvs: seq<(Key, T)>)
    ensures forall e :: e in SetAll(kvs) ==> e in kvs
    ensures kvs != [] ==> SetAll(kvs) != []
  {
    if kvs != [] {
      var init, last := kvs[..|kvs| - 1], kvs[|kvs| - 1];
      SetAllFrom(init);
      SetFrom(SetAll(init), last.0, last.1);
    }
  }

  lemma {:induction false} SetFrom<T>(es: seq<(Key, T)>, k: Key, v: T)
    ensures forall e :: e in Set(es, k, v) ==> e in es || e == (k, v)
    decreases |es|
  {
    if es != [] {
      SetFrom(es[1..], k, v);
    }
  }

  /** Layers of one name are one when printed: the last, in the first one's place. */
  function MergedLayers(ls: seq<Layer>): seq<Layer> {
    Values(SetAll(NamedLayers(ls)))
  }

  function MergedLevels(ls: seq<Level>): seq<Level> {
    Values(SetAll(NamedLevels(ls)))
  }

  lemma MergedLayersNamed(ls: seq<Layer>)
    ensures NamedLayers(MergedLayers(ls)) == SetAll(NamedLayers(ls)) && DistinctLayers(MergedLayers(ls))
    ensures forall l :: l in MergedLayers(ls) ==> l in ls
  {
    var es := SetAll(NamedLayers(ls));
    SetAllFrom(NamedLayers(ls));
    SetAllUnique(NamedLayers(ls));
    forall i | 0 <= i < |es| ensures es[i].0 == es[i].1.name && es[i].1 in ls {
      assert es[i] in NamedLayers(ls);
    }
  }

  lemma MergedLevelsNamed(ls: seq<Level>)
    ensures NamedLevels(MergedLevels(ls)) == SetAll(NamedLevels(ls)) && DistinctLevels(MergedLevels(ls))
    ensures forall l :: l in MergedLevels(ls) ==> l in ls
  {
    var es := SetAll(NamedLevels(ls));
    SetAllFrom(NamedLevels(ls));
    SetAllUnique(NamedLevels(ls));
    forall i | 0 <= i < |es| ensures es[i].0 == es[i].1.name && es[i].1 in ls {
      assert es[i] in NamedLevels(ls);
    }
  }

  lemma MergedLayersPrint(sc: Scalars, ls: seq<Layer>)
    ensures SetAll(LayerPairs(sc, MergedLayers(ls))) == SetAll(LayerPairs(sc, ls))
  {
    var f := (l: Layer) => LayerNode(sc, l);
    hide LayerNode;
    assert LayerPairs(sc, ls) == Mapped(NamedLayers(ls), f);
    MappedSetAll(NamedLayers(ls), f);
    MergedLayersNamed(ls);
    assert LayerPairs(sc, MergedLayers(ls)) == Mapped(SetAll(NamedLayers(ls)), f);
    SetAllTwice(LayerPairs(sc, ls));
  }

  lemma MergedLevelsPrint(sc: Scalars, ls: seq<Level>)
    ensures SetAll(LevelPairs(sc, MergedLevels(ls))) == SetAll(LevelPairs(sc, ls))
  {
    var f := (l: Level) => LevelNode(sc, l);
    hide LevelNode;
    assert LevelPairs(sc, ls) == Mapped(NamedLevels(ls), f);
    MappedSetAll(NamedLevels(ls), f);
    MergedLevelsNamed(ls);
    assert LevelPairs(sc, MergedLevels(ls)) == Mapped(SetAll(NamedLevels(ls)), f);
    SetAllTwice(LevelPairs(sc, ls));
  }

  // ---------------------------------------------------------------- printing what was parsed

  function Mapping(passthrough: Node): Node {
    if passthrough.Map? then passthrough else Map([])
  }

  function SettledVertices(vs: seq<Vertex>): (r: seq<Vertex>)
    ensures |r| == |vs|
  {
    seq(|vs|, i requires 0 <= i < |vs| => vs[i].(params := Telling(vs[i].params)))
  }

  function SettledFloor(f: Floor): Floor {
    f.(passthrough := Mapping(f.passthrough))
  }

  function SettledFloors(fs: seq<Floor>): (r: seq<Floor>)
    ensures |r| == |fs|
  {
    seq(|fs|, i requires 0 <= i < |fs| => SettledFloor(fs[i]))
  }

  function SettledLayers(ls: seq<Layer>): (r: seq<Layer>)
    ensures |r| == |ls|
  {
    seq(|ls|, i requires 0 <= i < |ls| => ls[i].(passthrough := Mapping(ls[i].passthrough)))
  }

  function SettledLevel(l: Level): Level {
    l.(vertices := SettledVertices(l.vertices), floors := SettledFloors(l.floors),
       layers := MergedLayers(SettledLayers(l.layers)))
  }

  function SettledLevels(ls: seq<Level>): (r: seq<Level>)
    ensures |r| == |ls|
  {
    seq(|ls|, i requires 0 <= i < |ls| => SettledLevel(ls[i]))
  }

  /** What printing makes of a building: empty texts of vertices gone, floors, layers and levels of
      one name merged. */
  function Settled(b: Building): Building {
    b.(levels := MergedLevels(SettledLevels(b.levels)))
  }

  lemma VerticesSettle(sc: Scalars, vs: seq<Vertex>)
    ensures VertexNodes(sc, SettledVertices(vs)) == VertexNodes(sc, vs)
  {
    forall i | 0 <= i < |vs| ensures VertexNode(sc, SettledVertices(vs)[i]) == VertexNode(sc, vs[i]) {
      TellingFrom(vs[i].params);
      TellingAll(Telling(vs[i].params));
    }
  }

  lemma FloorsSettle(sc: Scalars, fs: seq<Floor>)
    ensures FloorNodes(sc, SettledFloors(fs)) == FloorNodes(sc, fs)
  {
    hide ParamEntries, IntNodes, LoopNodes, Set;
    forall i | 0 <= i < |fs| ensures FloorNode(sc, SettledFloors(fs)[i]) == FloorNode(sc, fs[i]) {
      assert Spliced(Mapping(fs[i].passthrough)) == Spliced(fs[i].passthrough);
    }
  }

  lemma LayersSettle(sc: Scalars, ls: seq<Layer>)
    ensures LayerPairs(sc, SettledLayers(ls)) == LayerPairs(sc, ls)
  {
    hide ColourNode, PlaceNode, Set;
    forall i | 0 <= i < |ls| ensures LayerNode(sc, SettledLayers(ls)[i]) == LayerNode(sc, ls[i]) {
      assert Spliced(Mapping(ls[i].passthrough)) == Spliced(ls[i].passthrough);
    }
  }

  lemma MergedNone(ls: seq<Layer>)
    ensures MergedLayers(ls) == [] <==> ls == []
  {
    SetAllFrom(NamedLayers(ls));
  }

  lemma LevelSettles(sc: Scalars, l: Level)
    ensures LevelNode(sc, SettledLevel(l)) == LevelNode(sc, l)
  {
    VerticesSettle(sc, l.vertices);
    FloorsSettle(sc, l.floors);
    LayersSettle(sc, l.layers);
    MergedLayersPrint(sc, SettledLayers(l.layers));
    MergedNone(SettledLayers(l.layers));
    hide VertexNodes, FloorNodes, LayerPairs, SettledVertices, SettledFloors, EdgeNodes, FiducialNodes, Set, SetAll, MergedLayers;
  }

  lemma LevelsSettle(sc: Scalars, ls: seq<Level>)
    ensures LevelPairs(sc, SettledLevels(ls)) == LevelPairs(sc, ls)
  {
    forall i | 0 <= i < |ls| ensures LevelNode(sc, SettledLevels(ls)[i]) == LevelNode(sc, ls[i]) && SettledLevels(ls)[i].name == ls[i].name {
      LevelSettles(sc, ls[i]);
    }
    hide LevelNode, SettledLevel;
  }

  /** Printing does not see the difference. */
  lemma BuildingSettles(sc: Scalars, b: Building)
    ensures BuildingNode(sc, Settled(b)) == BuildingNode(sc, b)
  {
    LevelsSettle(sc, b.levels);
    MergedLevelsPrint(sc, SettledLevels(b.levels));
    hide LevelPairs, SetAll, MergedLevels, SettledLevels, Set;
  }

  // ---------------------------------------------------------------- what parsing leaves

  /** A floor's mapping whose last `holes`, the one that would be kept, is one the first decides. */
  predicate HolesSettled(es: Entries) {
    HolesTyped(es) || Last(es, Holes).None? || !Typed(Last(es, Holes).value)
  }

  predicate FloorSettled(n: Node) {
    n.Map? ==> HolesSettled(n.entries)
  }

  predicate LevelHoles(n: Node) {
    n.Map? ==> forall f :: f in ItemsAt(n.entries, Floors) ==> FloorSettled(f)
  }

  lemma FloorParsed(sc: Scalars, n: Node)
    requires Lawful(sc) && FloorOf(sc, n).Ok?
    ensures var f := SettledFloor(FloorOf(sc, n).value); PlainFloor(sc, f) && (NormalFloor(sc, f) <==> FloorSettled(n))
  {
    hide ParamsOf, Unknown, Typed, Last, IntsOf, LoopsOf, ParamOf, Lawful;
    if n.Map? {
      var es := n.entries;
      if Get(es, Parameters).Some? && Get(es, Parameters).value.Map? {
        ParamsRise(sc, Get(es, Parameters).value.entries);
      }
      UnknownLacks(es, HOLED_KEYS);
      UnknownLacks(es, FLOOR_KEYS);
      GetLacks(Unknown(es, HOLED_KEYS), Holes);
      UnknownKeeps(es, FLOOR_KEYS, Holes);
    }
  }

  lemma {:induction false} FloorsParsed(sc: Scalars, ns: seq<Node>)
    requires Lawful(sc) && FloorsOf(sc, ns).Ok?
    ensures var fs := SettledFloors(FloorsOf(sc, ns).value);
            PlainFloors(sc, fs) && (NormalFloors(sc, fs) <==> forall f :: f in ns ==> FloorSettled(f))
  {
    if ns != [] {
      var init, n := ns[..|ns| - 1], ns[|ns| - 1];
      assert ns == init + [n];
      FloorParsed(sc, n);
      hide FloorOf, FloorSettled, NormalFloor, PlainFloor, SettledFloor, SettledFloors, NormalFloors, PlainFloors, Lawful;
      FloorsParsed(sc, init);
      SettledFloorsMore(sc, FloorsOf(sc, init).value, FloorOf(sc, n).value);
    } else {
      assert SettledFloors([]) == [];
    }
  }

  lemma SettledFloorsMore(sc: Scalars, fs: seq<Floor>, f: Floor)
    ensures PlainFloors(sc, SettledFloors(fs + [f])) <==> PlainFloors(sc, SettledFloors(fs)) && PlainFloor(sc, SettledFloor(f))
    ensures NormalFloors(sc, SettledFloors(fs + [f])) <==> NormalFloors(sc, SettledFloors(fs)) && NormalFloor(sc, SettledFloor(f))
  {
    hide NormalFloor, PlainFloor, SettledFloor;
    var ss, s := SettledFloors(fs), SettledFloor(f);
    assert SettledFloors(fs + [f]) == ss + [s];
    assert forall g :: g in ss + [s] <==> g in ss || g == s;
  }

  lemma ParamsAtRise(sc: Scalars, n: Node)
    requires Lawful(sc) && ParamsAt(sc, n).Ok?
    ensures Rising(sc, ParamsAt(sc, n).value)
  {
    if n.Map? {
      ParamsRise(sc, n.entries);
    }
  }

  lemma {:induction false} VerticesParsed(sc: Scalars, ns: seq<Node>)
    requires Lawful(sc) && VerticesOf(sc, ns).Ok?
    ensures forall v :: v in SettledVertices(VerticesOf(sc, ns).value) ==> NormalVertex(sc, v)
  {
    if ns != [] {
      VerticesParsed(sc, ns[..|ns| - 1]);
      var vs, n := VerticesOf(sc, ns[..|ns| - 1]).value, ns[|ns| - 1];
      VertexParsed(sc, n);
      hide VertexOf, NormalVertex, Lawful, Telling;
      var v := VertexOf(sc, n).value;
      assert SettledVertices(vs + [v]) == SettledVertices(vs) + [v.(params := Telling(v.params))];
    }
  }

  lemma VertexParsed(sc: Scalars, n: Node)
    requires Lawful(sc) && VertexOf(sc, n).Ok?
    ensures var v := VertexOf(sc, n).value; NormalVertex(sc, v.(params := Telling(v.params)))
  {
    var v := VertexOf(sc, n).value;
    assert Rising(sc, v.params) by {
      if |n.items| >= 5 { ParamsAtRise(sc, n.items[4]); }
      hide ParamsAt, AsDouble, AsText;
    }
    TellingRises(sc, v.params);
    TellingFrom(v.params);
  }

  lemma {:induction false} EdgesParsed(sc: Scalars, ns: seq<Node>)
    requires Lawful(sc) && EdgesOf(sc, ns).Ok?
    ensures NormalEdges(sc, EdgesOf(sc, ns).value)
  {
    if ns != [] {
      EdgesParsed(sc, ns[..|ns| - 1]);
      EdgeParsed(sc, ns[|ns| - 1]);
      hide EdgeOf, Rising, Lawful;
    }
  }

  lemma EdgeParsed(sc: Scalars, n: Node)
    requires Lawful(sc) && EdgeOf(sc, n).Ok?
    ensures Rising(sc, EdgeOf(sc, n).value.params)
  {
    if |n.items| >= 3 { ParamsAtRise(sc, n.items[2]); }
    hide ParamsAt, AsInt;
  }

  lemma EdgesAtParsed(sc: Scalars, es: Entries, k: Key)
    requires Lawful(sc) && EdgesAt(sc, es, k).Ok?
    ensures NormalEdges(sc, EdgesAt(sc, es, k).value)
  {
    EdgesParsed(sc, ElementsAt(es, k).value);
  }

  lemma LayersParsed(sc: Scalars, es: Entries)
    ensures forall l :: l in SettledLayers(LayersOf(sc, es)) ==> NormalLayer(l)
  {
    var ls := SettledLayers(LayersOf(sc, es));
    forall i | 0 <= i < |ls| ensures NormalLayer(ls[i]) {
      LayerParsed(sc, es[i].0, es[i].1);
    }
  }

  lemma LayerParsed(sc: Scalars, name: Key, n: Node)
    ensures var l := LayerOf(sc, name, n); NormalLayer(l.(passthrough := Mapping(l.passthrough)))
  {
    if n.Map? {
      UnknownLacks(n.entries, LAYER_KEYS);
    }
    hide Unknown, ColourOf, PlaceOf, TextAt;
  }

  lemma MergedLayersNormal(ls: seq<Layer>)
    requires forall l :: l in ls ==> NormalLayer(l)
    ensures DistinctLayers(MergedLayers(ls)) && forall l :: l in MergedLayers(ls) ==> NormalLayer(l)
  {
    hide NormalLayer, MergedLayers, DistinctLayers;
    MergedLayersNamed(ls);
  }

  lemma LevelParsed(sc: Scalars, name: Key, n: Node)
    requires Lawful(sc) && LevelOf(sc, name, n).Ok?
    ensures var l := SettledLevel(LevelOf(sc, name, n).value); PlainLevel(sc, l) && (NormalLevel(sc, l) <==> LevelHoles(n))
  {
    var es := if n.Map? then n.entries else [];
    var l := LevelOf(sc, name, n).value;
    LevelPassed(sc, name, n, es);
    hide NormalVertex, NormalEdges, NormalFloors, PlainFloors, NormalLayer, DistinctLayers, Lawful, LevelOf, MergedLayers, FloorSettled,
         SettledVertices, SettledFloors, SettledLayers, VerticesOf, FloorsOf, LayersOf, EdgesAt, Passes;
    EdgesAtParsed(sc, es, Lanes);
    EdgesAtParsed(sc, es, Walls);
    EdgesAtParsed(sc, es, Doors);
    EdgesAtParsed(sc, es, Measurements);
    VerticesParsed(sc, ElementsAt(es, Vertices).value);
    FloorsParsed(sc, ItemsAt(es, Floors));
    LayersParsed(sc, EntriesAt(es, Layers));
    MergedLayersNormal(SettledLayers(l.layers));
  }

  lemma LevelPassed(sc: Scalars, name: Key, n: Node, es: Entries)
    requires LevelOf(sc, name, n).Ok? && es == if n.Map? then n.entries else []
    ensures var l := LevelOf(sc, name, n).value;
            && EdgesAt(sc, es, Lanes) == Ok(l.lanes) && EdgesAt(sc, es, Walls) == Ok(l.walls)
            && EdgesAt(sc, es, Doors) == Ok(l.doors) && EdgesAt(sc, es, Measurements) == Ok(l.measurements)
            && ElementsAt(es, Vertices).Ok? && VerticesOf(sc, ElementsAt(es, Vertices).value) == Ok(l.vertices)
            && FloorsOf(sc, ItemsAt(es, Floors)) == Ok(l.floors) && l.layers == LayersOf(sc, EntriesAt(es, Layers))
            && Passes(l.passthrough, LEVEL_KEYS)
  {
    UnknownLacks(es, LEVEL_KEYS);
    hide EdgesAt, VerticesOf, FloorsOf, LayersOf, FiducialsOf, Unknown, ElementsAt, ItemsAt, EntriesAt, DrawingOf, DoubleAt;
  }

  lemma LevelsLast(sc: Scalars, es: Entries)
    requires es != [] && LevelsOf(sc, es).Ok?
    ensures var init, e := es[..|es| - 1], es[|es| - 1];
            && LevelsOf(sc, init).Ok? && LevelOf(sc, e.0, e.1).Ok? && es == init + [e]
            && LevelsOf(sc, es).value == LevelsOf(sc, init).value + [LevelOf(sc, e.0, e.1).value]
  {
    hide LevelOf;
  }

  /** A settled level, and the entry it was parsed from. */
  ghost predicate ParsedFrom(sc: Scalars, l: Level, e: (Key, Node)) {
    l.name == e.0 && PlainLevel(sc, l) && (NormalLevel(sc, l) <==> LevelHoles(e.1))
  }

  ghost predicate AllParsed(sc: Scalars, ls: seq<Level>, es: Entries) {
    |ls| == |es| && forall i :: 0 <= i < |ls| ==> ParsedFrom(sc, ls[i], es[i])
  }

  lemma LevelNamed(sc: Scalars, name: Key, n: Node)
    requires LevelOf(sc, name, n).Ok?
    ensures SettledLevel(LevelOf(sc, name, n).value).name == name
  {
    hide EdgesAt, VerticesAt, FloorsOf, LayersOf, FiducialsOf, Unknown, ItemsAt, EntriesAt, DrawingOf, DoubleAt,
         SettledVertices, SettledFloors, SettledLayers, MergedLayers;
  }

  lemma {:induction false} LevelsParsed(sc: Scalars, es: Entries)
    requires Lawful(sc) && LevelsOf(sc, es).Ok?
    ensures AllParsed(sc, SettledLevels(LevelsOf(sc, es).value), es)
  {
    if es != [] {
      LevelsLast(sc, es);
      var init, e := es[..|es| - 1], es[|es| - 1];
      LevelParsed(sc, e.0, e.1);
      LevelNamed(sc, e.0, e.1);
      hide LevelOf, LevelHoles, NormalLevel, PlainLevel, Lawful, SettledLevel, LevelsOf, AllParsed, SettledLevels;
      LevelsParsed(sc, init);
      var ls, l := LevelsOf(sc, init).value, LevelOf(sc, e.0, e.1).value;
      SettledMore(ls, l);
      AllParsedMore(sc, SettledLevels(ls), SettledLevel(l), init, e);
    }
  }

  lemma SettledMore(ls: seq<Level>, l: Level)
    ensures SettledLevels(ls + [l]) == SettledLevels(ls) + [SettledLevel(l)]
  {
    hide SettledLevel;
  }

  lemma AllParsedMore(sc: Scalars, ls: seq<Level>, l: Level, es: Entries, e: (Key, Node))
    requires AllParsed(sc, ls, es) && ParsedFrom(sc, l, e)
    ensures AllParsed(sc, ls + [l], es + [e])
  {
    hide ParsedFrom;
  }

  lemma {:induction false} GetSetAll<T>(kvs: seq<(Key, T)>, k: Key)
    ensures Get(SetAll(kvs), k) == Last(kvs, k)
  {
    if kvs != [] {
      var init, last := kvs[..|kvs| - 1], kvs[|kvs| - 1];
      GetSetAll(init, k);
      GetSet(SetAll(init), last.0, last.1, k);
      hide Set, Get;
    }
  }

  lemma {:induction false} GetIn<T>(es: seq<(Key, T)>, k: Key)
    requires Get(es, k).Some?
    ensures (k, Get(es, k).value) in es
    decreases |es|
  {
    if es[0].0 != k {
      GetIn(es[1..], k);
    }
  }

  lemma {:induction false} GetUnique<T>(es: seq<(Key, T)>, i: nat)
    requires Unique(es) && i < |es|
    ensures Get(es, es[i].0) == Some(es[i].1)
    decreases |es|
  {
    if i > 0 {
      GetUnique(es[1..], i - 1);
    }
  }

  lemma {:induction false} LastParsed(sc: Scalars, ls: seq<Level>, es: Entries, k: Key)
    requires AllParsed(sc, ls, es)
    ensures var l, n := Last(NamedLevels(ls), k), Last(es, k);
            (l.Some? <==> n.Some?) && (l.Some? ==> ParsedFrom(sc, l.value, (k, n.value)))
    decreases |es|
  {
    hide ParsedFrom;
    if es != [] {
      var i := |es| - 1;
      ParsedNamed(sc, ls[i], es[i]);
      assert NamedLevels(ls)[..i] == NamedLevels(ls[..i]);
      LastParsed(sc, ls[..i], es[..i], k);
    }
  }

  lemma ParsedNamed(sc: Scalars, l: Level, e: (Key, Node))
    requires ParsedFrom(sc, l, e)
    ensures l.name == e.0 && ParsedFrom(sc, l, (e.0, e.1))
  {
  }

  /** The last entry of this level's name, the one that is printed, has no holes that will move. */
  ghost predicate LastHoles(es: Entries, k: Key) {
    Last(es, k).Some? ==> LevelHoles(Last(es, k).value)
  }

  /** Of the levels that survive printing no floor repeats `holes` with an untyped first and a typed
      last one. */
  ghost predicate SurvivingHoles(root: Node) {
    root.Map? ==> forall k: Key :: LastHoles(EntriesAt(root.entries, Levels), k)
  }

  lemma MergedParsed(sc: Scalars, ls: seq<Level>, es: Entries)
    requires AllParsed(sc, ls, es)
    ensures PlainLevels(sc, MergedLevels(ls))
    ensures NormalLevels(sc, MergedLevels(ls)) <==> forall k: Key :: LastHoles(es, k)
  {
    MergedLevelsNamed(ls);
    hide PlainLevel, NormalLevel, LevelHoles;
    var ms := MergedLevels(ls);
    forall l | l in ms ensures PlainLevel(sc, l) {
      var i :| 0 <= i < |ls| && ls[i] == l;
      assert ParsedFrom(sc, ls[i], es[i]);
    }
    forall l | l in ms ensures NormalLevel(sc, l) <==> LastHoles(es, l.name) {
      SurvivorParsed(sc, ls, es, l);
    }
    forall k: Key | Last(es, k).Some? ensures exists l :: l in ms && l.name == k {
      NameSurvives(sc, ls, es, k);
    }
    hide MergedLevels;
    if NormalLevels(sc, ms) {
      forall k: Key ensures LastHoles(es, k) {
        if Last(es, k).Some? {
          var l :| l in ms && l.name == k;
        }
      }
    }
  }

  lemma SurvivorParsed(sc: Scalars, ls: seq<Level>, es: Entries, l: Level)
    requires AllParsed(sc, ls, es) && l in MergedLevels(ls)
    ensures NormalLevel(sc, l) <==> LastHoles(es, l.name)
  {
    hide PlainLevel, NormalLevel, LevelHoles, AllParsed;
    MergedLevelsNamed(ls);
    var kvs := NamedLevels(ls);
    var i :| 0 <= i < |MergedLevels(ls)| && MergedLevels(ls)[i] == l;
    assert SetAll(kvs)[i] == NamedLevels(MergedLevels(ls))[i];
    hide MergedLevels, NamedLevels;
    SetAllUnique(kvs);
    GetUnique(SetAll(kvs), i);
    GetSetAll(kvs, l.name);
    LastParsed(sc, ls, es, l.name);
  }

  lemma NameSurvives(sc: Scalars, ls: seq<Level>, es: Entries, k: Key)
    requires AllParsed(sc, ls, es) && Last(es, k).Some?
    ensures exists l :: l in MergedLevels(ls) && l.name == k
  {
    MergedLevelsNamed(ls);
    var kvs, ms := NamedLevels(ls), MergedLevels(ls);
    LastParsed(sc, ls, es, k);
    GetSetAll(kvs, k);
    GetIn(SetAll(kvs), k);
    var i :| 0 <= i < |ms| && NamedLevels(ms)[i].0 == k;
    assert ms[i] in ms && ms[i].name == k;
  }

  /** What was parsed is plain once printing has settled it, and normal as far as its holes are. */
  lemma BuildingParsed(sc: Scalars, root: Node)
    requires Lawful(sc) && BuildingOf(sc, root).Ok?
    ensures var s := Settled(BuildingOf(sc, root).value);
            PlainBuilding(sc, s) && (NormalBuilding(sc, s) <==> SurvivingHoles(root))
  {
    var levels := EntriesAt(root.entries, Levels);
    UnknownLacks(root.entries, BUILDING_KEYS);
    hide LevelsOf, EntriesAt, NormalLevels, PlainLevels, SettledLevels, MergedLevels, Lawful, TextAt, Unknown, LastHoles;
    LevelsParsed(sc, levels);
    MergedParsed(sc, SettledLevels(LevelsOf(sc, levels).value), levels);
    MergedLevelsNamed(SettledLevels(LevelsOf(sc, levels).value));
  }

  // ---------------------------------------------------------------- when printing moves nothing

  lemma HolesPassed(sc: Scalars, f: Floor)
    requires PlainFloor(sc, f) && HolesTyped(f.passthrough.entries)
    ensures f.holes == []
  {
    if f.holes != [] {
      GetLacks(f.passthrough.entries, Holes);
    }
    hide Get, Rising, Typed;
  }

  lemma FloorPrintsSame(sc: Scalars, f: Floor)
    requires Lawful(sc) && PlainFloor(sc, f)
    ensures FloorNode(sc, FloorAgain(sc, f)) == FloorNode(sc, f) <==> NormalFloor(sc, f)
    ensures NormalFloor(sc, FloorAgain(sc, f))
  {
    if HolesTyped(f.passthrough.entries) {
      HolesPassed(sc, f);
      FloorReread(sc, f);
      FloorMoves(sc, f);
      UnknownLacks(f.passthrough.entries, HOLED_KEYS);
      GetLacks(Unknown(f.passthrough.entries, HOLED_KEYS), Holes);
      hide FloorNode, FloorOf, Lawful, Rising, Unknown, Typed, Get, LoopsOf;
    }
  }

  lemma FloorsPrintSame(sc: Scalars, fs: seq<Floor>)
    requires Lawful(sc) && PlainFloors(sc, fs)
    ensures FloorNodes(sc, FloorsAgain(sc, fs)) == FloorNodes(sc, fs) ==> NormalFloors(sc, fs)
    ensures NormalFloors(sc, FloorsAgain(sc, fs))
  {
    forall i | 0 <= i < |fs|
      ensures FloorNode(sc, FloorAgain(sc, fs[i])) == FloorNode(sc, fs[i]) <==> NormalFloor(sc, fs[i])
      ensures NormalFloor(sc, FloorAgain(sc, fs[i]))
    {
      FloorPrintsSame(sc, fs[i]);
    }
    hide FloorNode, FloorAgain, NormalFloor, PlainFloor, Lawful;
    if FloorNodes(sc, FloorsAgain(sc, fs)) == FloorNodes(sc, fs) {
      forall i | 0 <= i < |fs| ensures NormalFloor(sc, fs[i]) {
        assert FloorNodes(sc, FloorsAgain(sc, fs))[i] == FloorNodes(sc, fs)[i];
      }
    }
  }

  lemma LevelAgainNormal(sc: Scalars, l: Level)
    requires Lawful(sc) && PlainLevel(sc, l)
    ensures NormalLevel(sc, LevelAgain(sc, l))
  {
    hide NormalVertex, NormalEdges, NormalLayer, DistinctLayers, Passes, Lawful, FloorsAgain, FloorNodes, NormalFloor, PlainFloor;
    FloorsPrintSame(sc, l.floors);
    FloorsArePlain(sc, FloorsAgain(sc, l.floors));
  }

  lemma FloorsArePlain(sc: Scalars, fs: seq<Floor>)
    requires NormalFloors(sc, fs)
    ensures PlainFloors(sc, fs)
  {
    forall f | f in fs ensures PlainFloor(sc, f) {
      assert NormalFloor(sc, f);
    }
  }

  lemma LevelPrintsSame(sc: Scalars, l: Level)
    requires Lawful(sc) && PlainLevel(sc, l) && LevelNode(sc, LevelAgain(sc, l)) == LevelNode(sc, l)
    ensures NormalLevel(sc, l)
  {
    var m := LevelAgain(sc, l);
    LevelHasAll(sc, l);
    LevelHasAll(sc, m);
    FloorsPrintSame(sc, l.floors);
    hide NormalVertex, NormalEdges, NormalLayer, DistinctLayers, Passes, Lawful, FloorsAgain, NormalFloors, PlainFloors,
         LevelEntries, VertexNodes, EdgeNodes, FloorNodes, FiducialNodes, LayerPairs, SetAll, Get;
    var es := LevelEntries(sc, l);
    assert Has(es, l.floors != [], Floors, Seq(FloorNodes(sc, l.floors)));
    assert Has(es, m.floors != [], Floors, Seq(FloorNodes(sc, m.floors)));
    if l.floors == [] {
      assert FloorsAgain(sc, l.floors) == l.floors;
    }
  }

  lemma LevelsPrintSame(sc: Scalars, ls: seq<Level>)
    requires Lawful(sc) && PlainLevels(sc, ls) && LevelPairs(sc, LevelsAgain(sc, ls)) == LevelPairs(sc, ls)
    ensures NormalLevels(sc, ls)
  {
    forall i | 0 <= i < |ls| ensures NormalLevel(sc, ls[i]) {
      assert PlainLevel(sc, ls[i]);
      assert LevelPairs(sc, LevelsAgain(sc, ls))[i].1 == LevelPairs(sc, ls)[i].1;
      hide LevelNode, LevelAgain, PlainLevel, NormalLevel, Lawful;
      LevelPrintsSame(sc, ls[i]);
    }
  }

  lemma LevelsAgainNormal(sc: Scalars, ls: seq<Level>)
    requires Lawful(sc) && PlainLevels(sc, ls)
    ensures NormalLevels(sc, LevelsAgain(sc, ls)) && PlainLevels(sc, LevelsAgain(sc, ls))
    ensures DistinctLevels(ls) ==> DistinctLevels(LevelsAgain(sc, ls))
  {
    forall i | 0 <= i < |ls| ensures NormalLevel(sc, LevelAgain(sc, ls[i])) {
      assert PlainLevel(sc, ls[i]);
      LevelAgainNormal(sc, ls[i]);
    }
    hide PlainFloors, NormalFloors, FloorsAgain;
  }

  lemma AgainNormal(sc: Scalars, b: Building)
    requires Lawful(sc) && PlainBuilding(sc, b)
    ensures NormalBuilding(sc, BuildingAgain(sc, b))
  {
    LevelsAgainNormal(sc, b.levels);
    hide DistinctLevels, NormalLevels, PlainLevels, LevelsAgain, Passes;
  }

  lemma BuildingPrintsSame(sc: Scalars, b: Building)
    requires Lawful(sc) && PlainBuilding(sc, b)
    ensures BuildingNode(sc, BuildingAgain(sc, b)) == BuildingNode(sc, b) <==> NormalBuilding(sc, b)
  {
    if NormalBuilding(sc, b) {
      LevelsSame(sc, b.levels);
    } else if BuildingNode(sc, BuildingAgain(sc, b)) == BuildingNode(sc, b) {
      var c := BuildingAgain(sc, b);
      AgainNormal(sc, b);
      BuildingHasAll(sc, b);
      BuildingHasAll(sc, c);
      PairsUnique(sc, b.levels);
      PairsUnique(sc, c.levels);
      hide BuildingEntries, LevelPairs, SetAll, Get, Lawful, PlainLevels, NormalLevels, LevelsAgain, DistinctLevels;
      SetAllSelf(LevelPairs(sc, b.levels));
      SetAllSelf(LevelPairs(sc, c.levels));
      LevelsPrintSame(sc, b.levels);
    }
  }

  /** On every tree the parser accepts, what was printed is accepted; printing it again gives the same
      tree exactly when no level that survives repeats the holes of a floor in that way, and then
      the parse is the settled building.  From the second print on nothing changes. */
  lemma PrintingSettles(sc: Scalars, root: Node)
    requires Lawful(sc) && BuildingOf(sc, root).Ok?
    ensures var b := BuildingOf(sc, root).value;
            var again := BuildingOf(sc, BuildingNode(sc, b));
            && again.Ok?
            && (BuildingNode(sc, again.value) == BuildingNode(sc, b) <==> SurvivingHoles(root))
            && (SurvivingHoles(root) ==> again.value == Settled(b))
            && BuildingOf(sc, BuildingNode(sc, again.value)) == again
  {
    var b := BuildingOf(sc, root).value;
    var s := Settled(b);
    BuildingParsed(sc, root);
    if NormalBuilding(sc, s) { LevelsSame(sc, s.levels); }
    hide BuildingOf, BuildingNode, Settled, PlainBuilding, NormalBuilding, SurvivingHoles, Lawful;
    BuildingSettles(sc, b);
    BuildingReread(sc, s);
    BuildingPrintsSame(sc, s);
    AgainNormal(sc, s);
    BuildingBack(sc, BuildingAgain(sc, s));
  }

  /** One level with one floor, whose holes are nothing first and an empty list last. */
  function TwiceHoledFloor(): Node {
    Map([(Holes, Null), (Holes, Seq([]))])
  }

  function TwiceHoledLevel(): Node {
    Map([(Floors, Seq([TwiceHoledFloor()]))])
  }

  function TwiceHoled(): Node {
    Map([(Levels, Map([(Other("L1"), TwiceHoledLevel())]))])
  }

  lemma OnlyEntry<T>(k: Key, v: T, j: Key)
    ensures Get([(k, v)], j) == (if j == k then Some(v) else None) && Last([(k, v)], j) == Get([(k, v)], j)
  {
    GetStep([(k, v)], j);
    assert [(k, v)][..0] == [] && Last<T>([], j) == None;
  }

  lemma TwiceHoledUnsettled(sc: Scalars)
    ensures FloorOf(sc, TwiceHoledFloor()).Ok? && !FloorSettled(TwiceHoledFloor())
  {
    var es: Entries := [(Holes, Null), (Holes, Seq([]))];
    GetStep(es, Holes);
    GetStep(es, Parameters);
    assert es[1..] == [(Holes, Seq([]))];
    OnlyEntry(Holes, Seq([]), Parameters);
    hide Get;
  }

  lemma TwiceHoledLevelParses(sc: Scalars)
    ensures LevelOf(sc, Other("L1"), TwiceHoledLevel()).Ok?
  {
    hide Get, TwiceHoledFloor, FloorOf, FloorsOf, Unknown, LayersOf, FiducialsOf, TextAt;
    var floors := Seq([TwiceHoledFloor()]);
    forall k: Key ensures Get([(Floors, floors)], k) == if k == Floors then Some(floors) else None {
      OnlyEntry(Floors, floors, k);
    }
    TwiceHoledFloorsParse(sc);
  }

  lemma TwiceHoledFloorsParse(sc: Scalars)
    ensures FloorsOf(sc, [TwiceHoledFloor()]).Ok?
  {
    hide FloorOf, TwiceHoledFloor;
    TwiceHoledUnsettled(sc);
    assert [TwiceHoledFloor()][..0] == [];
  }

  lemma TwiceHoledParses(sc: Scalars)
    ensures BuildingOf(sc, TwiceHoled()).Ok?
  {
    var levels := Map([(Other("L1"), TwiceHoledLevel())]);
    TwiceHoledLevelParses(sc);
    OnlyEntry(Levels, levels, Levels);
    hide Get, LevelOf, TwiceHoledLevel, Unknown, TextAt;
    var es: Entries := [(Other("L1"), TwiceHoledLevel())];
    assert es[..0] == [] && LevelsOf(sc, es[..0]) == Ok([]);
    assert LevelsOf(sc, es).Ok?;
  }

  lemma TwiceHoledStays(sc: Scalars)
    ensures !SurvivingHoles(TwiceHoled())
  {
    var floors, level := Seq([TwiceHoledFloor()]), TwiceHoledLevel();
    TwiceHoledUnsettled(sc);
    OnlyEntry(Levels, Map([(Other("L1"), level)]), Levels);
    OnlyEntry(Other("L1"), level, Other("L1"));
    OnlyEntry(Floors, floors, Floors);
    hide Get, Last, TwiceHoledFloor, FloorSettled;
    assert TwiceHoledFloor() in ItemsAt([(Floors, floors)], Floors);
    assert !LevelHoles(level);
    assert !LastHoles(EntriesAt(TwiceHoled().entries, Levels), Other("L1"));
  }

  /** That building is accepted, and printing it twice gives two trees. */
  lemma TwiceHoledMoves(sc: Scalars)
    requires Lawful(sc)
    ensures BuildingOf(sc, TwiceHoled()).Ok?
    ensures var b := BuildingOf(sc, TwiceHoled()).value;
            var again := BuildingOf(sc, BuildingNode(sc, b));
            again.Ok? && BuildingNode(sc, again.value) != BuildingNode(sc, b)
  {
    TwiceHoledParses(sc);
    TwiceHoledStays(sc);
    hide BuildingOf, TwiceHoled, SurvivingHoles, Lawful, BuildingNode;
    PrintingSettles(sc, TwiceHoled());
  }

  // ---------------------------------------------------------------- unknown keys

  /** Every key of the building the code does not know comes out of parsing and printing with the
      value it had, the last one if the tree repeats it. */
  lemma BuildingKeepsUnknown(sc: Scalars, root: Node, k: Key)
    requires BuildingOf(sc, root).Ok? && k !in BUILDING_KEYS
    ensures Get(BuildingEntries(sc, BuildingOf(sc, root).value), k) == Last(root.entries, k)
  {
    var b := BuildingOf(sc, root).value;
    UnknownLacks(root.entries, BUILDING_KEYS);
    UnknownKeeps(root.entries, BUILDING_KEYS, k);
    PassesSpliced(b.passthrough, BUILDING_KEYS);
    BuildingIsPuts(sc, b);
    BuildingPutsApart(sc, b);
    hide Get, Last, Unknown, BuildingEntries, Puts, LevelsOf, LevelPairs, SetAll, Spliced;
    GetPutsElse(Spliced(b.passthrough), BuildingPuts(sc, b), k);
  }

  lemma LevelKeepsUnknown(sc: Scalars, name: Key, n: Node, k: Key)
    requires n.Map? && LevelOf(sc, name, n).Ok? && k !in LEVEL_KEYS
    ensures Get(LevelEntries(sc, LevelOf(sc, name, n).value), k) == Last(n.entries, k)
  {
    var l := LevelOf(sc, name, n).value;
    LevelMap(sc, name, n);
    UnknownLacks(n.entries, LEVEL_KEYS);
    UnknownKeeps(n.entries, LEVEL_KEYS, k);
    PassesSpliced(l.passthrough, LEVEL_KEYS);
    LevelIsPuts(sc, l);
    LevelPutsApart(sc, l);
    hide Get, Last, Unknown, LevelEntries, Puts, LevelOf, LevelPuts, SetAll, Spliced;
    GetPutsElse(Spliced(l.passthrough), LevelPuts(sc, l), k);
  }

  lemma LevelMap(sc: Scalars, name: Key, n: Node)
    requires n.Map? && LevelOf(sc, name, n).Ok?
    ensures LevelOf(sc, name, n).value.passthrough == Map(Unknown(n.entries, LEVEL_KEYS))
  {
    hide EdgesAt, VerticesAt, FloorsOf, LayersOf, FiducialsOf, Unknown, ItemsAt, EntriesAt, DrawingOf, DoubleAt;
  }

  /** Keys of a floor, among them holes the model does not have. */
  lemma FloorKeepsUnknown(sc: Scalars, n: Node, k: Key)
    requires n.Map? && FloorOf(sc, n).Ok? && k !in (if HolesTyped(n.entries) then HOLED_KEYS else FLOOR_KEYS)
    ensures Get(FloorEntries(sc, FloorOf(sc, n).value), k) == Last(n.entries, k)
  {
    var f, known := FloorOf(sc, n).value, if HolesTyped(n.entries) then HOLED_KEYS else FLOOR_KEYS;
    UnknownLacks(n.entries, known);
    UnknownKeeps(n.entries, known, k);
    SetAllSelf(Unknown(n.entries, known));
    var e0 := Spliced(f.passthrough);
    var p, v, h := Map(ParamEntries(sc, f.params)), Seq(IntNodes(sc, f.vertices)), Seq(LoopNodes(sc, f.holes));
    assert e0 == Unknown(n.entries, known);
    hide Get, Set, Last, Unknown, Spliced, ParamEntries, IntNodes, LoopNodes, IntsOf, LoopsOf, Typed;
    GetSet(e0, Parameters, p, k);
    GetSet(Set(e0, Parameters, p), Vertices, v, k);
    GetSetIf(Set(Set(e0, Parameters, p), Vertices, v), f.holes != [], Holes, h, k);
  }

  lemma LayerKeepsUnknown(sc: Scalars, name: Key, n: Node, k: Key)
    requires n.Map? && k !in LAYER_KEYS
    ensures Get(LayerEntries(sc, LayerOf(sc, name, n)), k) == Last(n.entries, k)
  {
    var l := LayerOf(sc, name, n);
    UnknownLacks(n.entries, LAYER_KEYS);
    UnknownKeeps(n.entries, LAYER_KEYS, k);
    SetAllSelf(Unknown(n.entries, LAYER_KEYS));
    var e0 := Spliced(l.passthrough);
    assert e0 == Unknown(n.entries, LAYER_KEYS);
    var f, v, c, t := Scalar(l.filename), BoolNode(sc, l.visible), ColourNode(sc, l.color), PlaceNode(sc, l.place);
    hide Get, Set, Last, Unknown, Spliced, ColourNode, PlaceNode, BoolNode, LayerOf;
    GetSet(e0, Filename, f, k);
    GetSet(Set(e0, Filename, f), Visible, v, k);
    GetSet(Set(Set(e0, Filename, f), Visible, v), Color, c, k);
    GetSet(Set(Set(Set(e0, Filename, f), Visible, v), Color, c), Transform, t, k);
  }

  // ---------------------------------------------------------------- a tree that does not settle

  lemma LastKey(es: Entries, k: Key, v: Node)
    requires Lacks(es, k)
    ensures var r := Set(es, k, v); r == es + [(k, v)] && r[|r| - 1].0 == k
  {
    SetNew(es, k, v);
  }

  lemma SetLacks(es: Entries, k: Key, v: Node, j: Key)
    requires Lacks(es, j) && k != j
    ensures Lacks(Set(es, k, v), j)
  {
    GetLacks(es, j);
    GetSet(es, k, v, j);
    GetLacks(Set(es, k, v), j);
  }

  /** A printed floor without holes of its own ends in its vertices; one with holes in the holes. */
  lemma FloorEnds(sc: Scalars, f: Floor)
    requires f.passthrough.Map? && Unique(f.passthrough.entries) && NoneOf(f.passthrough.entries, FLOOR_KEYS)
    ensures var es := FloorEntries(sc, f);
            && es != []
            && (f.holes == [] ==> es[|es| - 1].0 == Vertices && Get(es, Holes) == Get(f.passthrough.entries, Holes)
                                  && Get(es, Parameters) == Some(Map(ParamEntries(sc, f.params))))
            && (f.holes != [] && Lacks(f.passthrough.entries, Holes) ==> es[|es| - 1].0 == Holes)
  {
    hide ParamEntries, IntNodes, LoopNodes, Set, Get;
    PassesSpliced(f.passthrough, FLOOR_KEYS);
    var e0 := Spliced(f.passthrough);
    var p, v, h := Map(ParamEntries(sc, f.params)), Seq(IntNodes(sc, f.vertices)), Seq(LoopNodes(sc, f.holes));
    var e1 := Set(e0, Parameters, p);
    var e2 := Set(e1, Vertices, v);
    SetLacks(e0, Parameters, p, Vertices);
    LastKey(e1, Vertices, v);
    GetSet(e0, Parameters, p, Holes);
    GetSet(e1, Vertices, v, Holes);
    GetSet(e0, Parameters, p, Parameters);
    GetSet(e1, Vertices, v, Parameters);
    if Lacks(e0, Holes) {
      SetLacks(e0, Parameters, p, Holes);
      SetLacks(e1, Vertices, v, Holes);
      LastKey(e2, Holes, h);
    }
  }

  /** The parse of a printed floor whose passthrough holds typed holes: they are the floor's own. */
  lemma FloorMoves(sc: Scalars, f: Floor)
    requires Lawful(sc) && Rising(sc, f.params) && f.holes == [] && Passes(f.passthrough, FLOOR_KEYS)
    requires HolesTyped(f.passthrough.entries)
    ensures var g := FloorOf(sc, FloorNode(sc, f)); g.Ok? && FloorNode(sc, g.value) != FloorNode(sc, f)
  {
    hide ParamsOf, ParamEntries, ParamPairs, Get, Unknown, IntsOf, LoopsOf, FloorEntries, Typed, Lawful, Rising;
    var es := FloorEntries(sc, f);
    FloorEnds(sc, f);
    PrintsParams(sc, f.params);
    ParamsBack(sc, f.params);
    var g := FloorOf(sc, Map(es)).value;
    UnknownLacks(es, HOLED_KEYS);
    GetLacks(Unknown(es, HOLED_KEYS), Holes);
    FloorEnds(sc, g);
  }

  /** Printing a parsed floor settles at once exactly when its mapping does not repeat `holes` with an
      untyped first and a typed last one. */
  lemma FloorSettlesIff(sc: Scalars, n: Node)
    requires Lawful(sc) && FloorOf(sc, n).Ok?
    ensures var f := FloorOf(sc, n).value;
            var g := FloorOf(sc, FloorNode(sc, f));
            g.Ok? && (FloorNode(sc, g.value) == FloorNode(sc, f) <==> FloorSettled(n))
  {
    var f := FloorOf(sc, n).value;
    if FloorSettled(n) {
      FloorParsed(sc, n);
      FloorsSettle(sc, [f]);
      assert FloorNodes(sc, SettledFloors([f]))[0] == FloorNodes(sc, [f])[0];
      hide FloorOf, FloorNode, NormalFloor, Lawful;
      FloorBack(sc, SettledFloor(f));
    } else {
      FloorUnsettled(sc, n);
      hide FloorOf, FloorNode, Lawful, HolesTyped, Rising;
      FloorMoves(sc, f);
    }
  }

  lemma FloorUnsettled(sc: Scalars, n: Node)
    requires Lawful(sc) && FloorOf(sc, n).Ok? && !FloorSettled(n)
    ensures var f := FloorOf(sc, n).value;
            && Rising(sc, f.params) && f.holes == [] && Passes(f.passthrough, FLOOR_KEYS)
            && HolesTyped(f.passthrough.entries)
  {
    var es := n.entries;
    if Get(es, Parameters).Some? {
      ParamsAtRise(sc, Get(es, Parameters).value);
    }
    UnknownLacks(es, FLOOR_KEYS);
    UnknownKeeps(es, FLOOR_KEYS, Holes);
    hide ParamsAt, Unknown, Typed, Get, Last, IntsOf, LoopsOf;
  }
}
