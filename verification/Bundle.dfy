/** Packing a map with its images into a zip and reading it back, after `model/map_bundle.cpp`.
    An archive is the list of its named entries. */
module Bundle {
  import opened BundlePaths

  type byte = x: int | 0 <= x < 256
  type Bytes = seq<byte>

  datatype Option<+T> = None | Some(value: T)
  datatype Result<+T> = Ok(value: T) | Err(error: BundleError)
  datatype BundleError =
    | NoYamlName | UnsafeYamlName | UnsafeAssetEntry | NotEncodable | CannotAdd
    | EmptyArchive | TooManyEntries | UnsafeEntryName | TooLarge | ExpandsTooMuch
    | BadManifest | BadVersion | NoUsableYaml | NoYaml | BadYaml | TooManyAssets
    | ManyYamls | NoMap | TooManyRefs

  /** Of a building what the bundle looks at; `rest` stands for all else. */
  datatype Level = Level(drawing: string, layers: seq<string>)
  datatype Building = Building(levels: seq<Level>, rest: nat)

  datatype Asset = Asset(path: string, entry: string, bytes: Bytes)
  datatype MapBundle = MapBundle(yamlName: string, building: Building, assets: seq<Asset>, missing: seq<string>)

  datatype Item = NotAnObject | Item(path: string, entry: string)
  datatype Manifest = Manifest(format: string, version: int, building: string, assets: Option<seq<Item>>)

  /** The text encodings, of which only their laws are known. */
  datatype Text = Text(yaml: Building -> Bytes, parse: Bytes -> Option<Building>,
                       dump: Manifest -> Option<Bytes>, load: Bytes -> Option<Manifest>)

  ghost predicate Lawful(t: Text) {
    && (forall m: Manifest :: t.dump(m).Some? ==> t.load(t.dump(m).value) == Some(m))
    && (forall b: Building :: t.yaml(b) != [])
  }

  /** An entry of an archive: `packed` is its size in the archive. */
  datatype Entry = Entry(name: string, data: Bytes, packed: nat, directory: bool)
  type Archive = seq<Entry>

  const FORMAT := "rmfmap"
  const VERSION := 2
  const YAML_SUFFIX := ".building.yaml"
  const MAX_ENTRIES := 4096
  const MAX_BYTES := 0x2000_0000
  const MAX_ASSETS := 4096
  const MAX_RATIO := 200
  /** The zip reader keeps this much of an entry's name. */
  const MAX_NAME := 511

  // ---------------------------------------------------------------- building_asset_refs

  function LayerRefs(layers: seq<string>): seq<string> {
    if layers == [] then []
    else LayerRefs(layers[..|layers| - 1]) + (if layers[|layers| - 1] == "" then [] else [layers[|layers| - 1]])
  }

  function LevelRefs(levels: seq<Level>): seq<string> {
    if levels == [] then []
    else
      var l := levels[|levels| - 1];
      LevelRefs(levels[..|levels| - 1]) + (if l.drawing == "" then [] else [l.drawing]) + LayerRefs(l.layers)
  }

  /** Every image the building names, in order; empty names are none. */
  function Refs(b: Building): seq<string> {
    LevelRefs(b.levels)
  }

  /** The building shows this image: some floor's drawing, or a layer's image on some floor. */
  predicate Shows(b: Building, ref: string) {
    ref != "" && exists i :: 0 <= i < |b.levels| && (ref == b.levels[i].drawing || ref in b.levels[i].layers)
  }

  lemma {:induction false} LayerRefsAre(layers: seq<string>, ref: string)
    ensures ref in LayerRefs(layers) <==> ref != "" && ref in layers
  {
    if layers != [] {
      var init, last := layers[..|layers| - 1], layers[|layers| - 1];
      LayerRefsAre(init, ref);
      assert layers == init + [last];
    }
  }

  /** The images collected are exactly those shown. */
  lemma {:induction false} RefsAre(b: Building, ref: string)
    ensures ref in Refs(b) <==> Shows(b, ref)
    decreases |b.levels|
  {
    if b.levels != [] {
      var n := |b.levels| - 1;
      var less, l := b.(levels := b.levels[..n]), b.levels[n];
      RefsAre(less, ref);
      LayerRefsAre(l.layers, ref);
      assert forall i :: 0 <= i < n ==> less.levels[i] == b.levels[i];
      hide LayerRefs;
    }
  }

  method CollectRefs(b: Building) returns (refs: seq<string>)
    ensures refs == Refs(b) && forall ref :: ref in refs <==> Shows(b, ref)
  {
    forall ref ensures ref in Refs(b) <==> Shows(b, ref) { RefsAre(b, ref); }
    refs := [];
    for i := 0 to |b.levels|
      invariant refs == LevelRefs(b.levels[..i])
    {
      assert b.levels[..i + 1][..i] == b.levels[..i];
      var l := b.levels[i];
      if l.drawing != "" { refs := refs + [l.drawing]; }
      ghost var before := refs;
      for j := 0 to |l.layers|
        invariant refs == before + LayerRefs(l.layers[..j])
      {
        assert l.layers[..j + 1][..j] == l.layers[..j];
        if l.layers[j] != "" { refs := refs + [l.layers[j]]; }
      }
      assert l.layers[..|l.layers|] == l.layers;
    }
    assert b.levels[..|b.levels|] == b.levels;
  }

  // ---------------------------------------------------------------- collect_bundle

  datatype Collected = Collected(assets: seq<Asset>, missing: seq<string>, seen: set<string>, external: nat)

  /** What one reference adds. */
  function Took(c: Collected, ref: string, yaml: string, read: string -> Option<Bytes>): Collected {
    if ref in c.seen then c
    else
      var seen, bytes := c.seen + {ref}, read(ref);
      if bytes.None? || bytes.value == [] then c.(missing := c.missing + [ref], seen := seen)
      else if OwnPath(ref, yaml) then c.(assets := c.assets + [Asset(ref, ref, bytes.value)], seen := seen)
      else Collected(c.assets + [Asset(ref, Flat(ref, c.external + 1), bytes.value)], c.missing, seen, c.external + 1)
  }

  function TookAll(refs: seq<string>, yaml: string, read: string -> Option<Bytes>): Collected {
    if refs == [] then Collected([], [], {}, 0)
    else Took(TookAll(refs[..|refs| - 1], yaml, read), refs[|refs| - 1], yaml, read)
  }

  function Collect(b: Building, yaml: string, read: string -> Option<Bytes>): MapBundle {
    var c := TookAll(Refs(b), yaml, read);
    MapBundle(yaml, b, c.assets, c.missing)
  }

  /** `collect_bundle`. */
  method CollectBundle(b: Building, yaml: string, read: string -> Option<Bytes>) returns (out: MapBundle)
    ensures out == Collect(b, yaml, read)
  {
    hide Shows, Refs, Portable, Collides, Flat;
    var refs := CollectRefs(b);
    var assets: seq<Asset>, missing: seq<string>, seen: set<string>, external: nat := [], [], {}, 0;
    for i := 0 to |refs|
      invariant Collected(assets, missing, seen, external) == TookAll(refs[..i], yaml, read)
    {
      assert refs[..i + 1][..i] == refs[..i];
      var ref := refs[i];
      if ref !in seen {
        seen := seen + {ref};
        var bytes := read(ref);
        if bytes.None? || bytes.value == [] {
          missing := missing + [ref];
        } else {
          var entry := ref;
          var portable := IsPortable(ref);
          if !portable || Collides(ref, yaml) {
            external := external + 1;
            entry := Flat(ref, external);
          }
          assets := assets + [Asset(ref, entry, bytes.value)];
        }
      }
    }
    assert refs[..|refs|] == refs;
    out := MapBundle(yaml, b, assets, missing);
  }

  // ---------------------------------------------------------------- write_bundle

  function EndsInSlash(name: string): bool {
    name != [] && name[|name| - 1] == '/'
  }

  /** Adding an entry: a name that ends in a slash is a directory, which can hold no data.
      `pack` says how small the compressor makes the data. */
  function Added(ar: Archive, name: string, data: Bytes, packed: nat): Result<Archive> {
    if EndsInSlash(name) && data != [] then Err(CannotAdd)
    else Ok(ar + [Entry(name, data, packed, EndsInSlash(name))])
  }

  function Items(assets: seq<Asset>): (items: seq<Item>)
    ensures |items| == |assets|
  {
    seq(|assets|, i requires 0 <= i < |assets| => Item(assets[i].path, assets[i].entry))
  }

  function ManifestOf(m: MapBundle): Manifest {
    Manifest(FORMAT, VERSION, m.yamlName, Some(Items(m.assets)))
  }

  function AssetEntries(assets: seq<Asset>): (es: seq<Entry>)
    ensures |es| == |assets|
  {
    seq(|assets|, i requires 0 <= i < |assets| => Entry(assets[i].entry, assets[i].bytes, |assets[i].bytes|, false))
  }

  /** The archive of a bundle: the manifest, the yaml, and the images stored as they are. */
  function ArchiveOf(t: Text, m: MapBundle, manifest: Bytes, pack: Bytes -> nat): Archive {
    [Entry(MANIFEST, manifest, pack(manifest), false), Entry(m.yamlName, t.yaml(m.building), pack(t.yaml(m.building)), false)]
    + AssetEntries(m.assets)
  }

  predicate Addable(name: string) {
    Safe(name) && !EndsInSlash(name)
  }

  /** `write_bundle`: it succeeds exactly when every name is safe and can hold data, and then the
      archive has these entries. */
  method WriteBundle(t: Text, m: MapBundle, pack: Bytes -> nat) returns (r: Result<Archive>)
    requires Lawful(t) && forall a :: a in m.assets ==> a.bytes != []
    ensures r.Ok? <==> Addable(m.yamlName) && (forall a :: a in m.assets ==> Addable(a.entry)) && t.dump(ManifestOf(m)).Some?
    ensures r.Ok? ==> r.value == ArchiveOf(t, m, t.dump(ManifestOf(m)).value, pack)
  {
    if m.yamlName == [] { return Err(NoYamlName); }
    if !Safe(m.yamlName) { return Err(UnsafeYamlName); }
    var items := ListItems(m.assets);
    if items.Err? { return Err(items.error); }
    var text := t.dump(Manifest(FORMAT, VERSION, m.yamlName, Some(items.value)));
    if text.None? { return Err(NotEncodable); }
    r := Added([], MANIFEST, text.value, pack(text.value));
    assert !EndsInSlash(MANIFEST);
    var yaml := t.yaml(m.building);
    r := Added(r.value, m.yamlName, yaml, pack(yaml));
    if r.Err? { return; }
    r := AddAssets(r.value, m.assets);
  }

  method ListItems(assets: seq<Asset>) returns (r: Result<seq<Item>>)
    ensures r.Ok? <==> forall a :: a in assets ==> Safe(a.entry)
    ensures r.Ok? ==> r.value == Items(assets)
  {
    hide Safe;
    var items: seq<Item> := [];
    for i := 0 to |assets|
      invariant items == Items(assets[..i])
      invariant forall k :: 0 <= k < i ==> Safe(assets[k].entry)
    {
      if !Safe(assets[i].entry) { return Err(UnsafeAssetEntry); }
      items := items + [Item(assets[i].path, assets[i].entry)];
    }
    assert assets[..|assets|] == assets;
    return Ok(items);
  }

  method AddAssets(ar: Archive, assets: seq<Asset>) returns (r: Result<Archive>)
    requires forall a :: a in assets ==> a.bytes != []
    ensures r.Ok? <==> forall a :: a in assets ==> !EndsInSlash(a.entry)
    ensures r.Ok? ==> r.value == ar + AssetEntries(assets)
  {
    hide EndsInSlash;
    var out := ar;
    assert ar + AssetEntries([]) == ar;
    for i := 0 to |assets|
      invariant out == ar + AssetEntries(assets[..i])
      invariant forall k :: 0 <= k < i ==> !EndsInSlash(assets[k].entry)
    {
      var a := assets[i];
      var e := Entry(a.entry, a.bytes, |a.bytes|, false);
      var next := Added(out, a.entry, a.bytes, |a.bytes|);
      if next.Err? { return next; }
      assert AssetEntries(assets[..i + 1]) == AssetEntries(assets[..i]) + [e];
      assert (ar + AssetEntries(assets[..i])) + [e] == ar + (AssetEntries(assets[..i]) + [e]);
      out := next.value;
    }
    assert assets[..|assets|] == assets;
    return Ok(out);
  }
}
