/** `read_bundle` and `read_plain_folder` of `model/map_bundle.cpp`. */
module BundleRead {
  import opened BundlePaths
  import opened Bundle

  /** Where each name is, and the sizes unpacked and packed. */
  datatype Catalog = Catalog(names: map<string, nat>, plain: nat, packed: nat)

  /** The name the zip reader gives for an entry. */
  function NameRead(name: string): string {
    if |name| > MAX_NAME then name[..MAX_NAME] else name
  }

  /** The directory so far with one more entry: the first of a name is the one that counts. */
  function Listing(c: Catalog, e: Entry, at: nat): Result<Catalog> {
    if e.directory then Ok(c)
    else if !Safe(NameRead(e.name)) then Err(UnsafeEntryName)
    else if c.plain + |e.data| > MAX_BYTES then Err(TooLarge)
    else
      var name := NameRead(e.name);
      Ok(Catalog(if name in c.names then c.names else c.names[name := at], c.plain + |e.data|, c.packed + e.packed))
  }

  function ListAll(ar: Archive): Result<Catalog> {
    if ar == [] then Ok(Catalog(map[], 0, 0))
    else
      var c := ListAll(ar[..|ar| - 1]);
      if c.Err? then c else Listing(c.value, ar[|ar| - 1], |ar| - 1)
  }

  function DataOf(ar: Archive, names: map<string, nat>, entry: string): Bytes {
    if entry in names && names[entry] < |ar| then ar[names[entry]].data else []
  }

  datatype Found = Found(assets: seq<Asset>, missing: seq<string>, seen: set<string>, size: nat)

  const NOTHING := Found([], [], {}, 0)

  /** One image the manifest lists. */
  function Picked(ar: Archive, names: map<string, nat>, f: Found, item: Item): Result<Found> {
    if item.NotAnObject? || item.path == "" || item.entry == "" then Ok(f)
    else if !Safe(item.entry) then Err(UnsafeAssetEntry)
    else if item.entry in f.seen then Ok(f)
    else if item.entry !in names then Ok(f.(missing := f.missing + [item.path], seen := f.seen + {item.entry}))
    else
      var bytes := DataOf(ar, names, item.entry);
      if f.size + |bytes| > MAX_BYTES then Err(TooLarge)
      else Ok(Found(f.assets + [Asset(item.path, item.entry, bytes)], f.missing, f.seen + {item.entry}, f.size + |bytes|))
  }

  function PickAll(ar: Archive, names: map<string, nat>, items: seq<Item>): Result<Found> {
    if items == [] then Ok(NOTHING)
    else
      var f := PickAll(ar, names, items[..|items| - 1]);
      if f.Err? then f else Picked(ar, names, f.value, items[|items| - 1])
  }

  /** One image a plain folder's building names, after `n` before it. */
  function Looked(ar: Archive, names: map<string, nat>, f: Found, ref: string, n: nat): Result<Found> {
    if n + 1 > MAX_ASSETS then Err(TooManyRefs)
    else if ref in f.seen then Ok(f)
    else if ref !in names then Ok(f.(missing := f.missing + [ref], seen := f.seen + {ref}))
    else
      var bytes := DataOf(ar, names, ref);
      if f.size + |bytes| > MAX_BYTES then Err(TooLarge)
      else Ok(Found(f.assets + [Asset(ref, ref, bytes)], f.missing, f.seen + {ref}, f.size + |bytes|))
  }

  function LookAll(ar: Archive, names: map<string, nat>, refs: seq<string>): Result<Found> {
    if refs == [] then Ok(NOTHING)
    else
      var f := LookAll(ar, names, refs[..|refs| - 1]);
      if f.Err? then f else Looked(ar, names, f.value, refs[|refs| - 1], |refs| - 1)
  }

  predicate HasPath(assets: seq<Asset>, path: string) {
    exists k :: 0 <= k < |assets| && assets[k].path == path
  }

  /** The references that are neither packed nor known to be missing, each once. */
  function AllMissing(refs: seq<string>, assets: seq<Asset>, missing: seq<string>): seq<string> {
    if refs == [] then missing
    else
      var m, ref := AllMissing(refs[..|refs| - 1], assets, missing), refs[|refs| - 1];
      if HasPath(assets, ref) || ref in m then m else m + [ref]
  }

  predicate RootYaml(name: string) {
    |name| > |YAML_SUFFIX| && name[|name| - |YAML_SUFFIX|..] == YAML_SUFFIX && '/' !in name
  }

  function Roots(names: map<string, nat>): set<string> {
    set n | n in names && RootYaml(n)
  }

  /** What follows once the yaml's name is known. */
  function ReadYaml(t: Text, ar: Archive, names: map<string, nat>, yaml: string): Result<Building> {
    var b := t.parse(DataOf(ar, names, yaml));
    if b.None? then Err(BadYaml) else Ok(b.value)
  }

  ghost function ReadPlain(t: Text, ar: Archive, names: map<string, nat>): Result<MapBundle> {
    if |Roots(names)| > 1 then Err(ManyYamls)
    else if Roots(names) == {} then Err(NoMap)
    else
      var yaml :| yaml in Roots(names);
      var b := ReadYaml(t, ar, names, yaml);
      if b.Err? then Err(b.error)
      else
        var f := LookAll(ar, names, Refs(b.value));
        if f.Err? then Err(f.error) else Ok(MapBundle(yaml, b.value, f.value.assets, f.value.missing))
  }

  function ReadListed(t: Text, ar: Archive, names: map<string, nat>): Result<MapBundle> {
    var m := t.load(DataOf(ar, names, MANIFEST));
    if m.None? || m.value.format != FORMAT then Err(BadManifest)
    else if m.value.version <= 0 || m.value.version > VERSION then Err(BadVersion)
    else if m.value.building == "" || !Safe(m.value.building) then Err(NoUsableYaml)
    else if m.value.building !in names then Err(NoYaml)
    else
      var b := ReadYaml(t, ar, names, m.value.building);
      if b.Err? then Err(b.error)
      else
        var items := if m.value.assets.Some? then m.value.assets.value else [];
        if |items| > MAX_ASSETS then Err(TooManyAssets)
        else
          var f := PickAll(ar, names, items);
          if f.Err? then Err(f.error)
          else Ok(MapBundle(m.value.building, b.value, f.value.assets,
                            AllMissing(Refs(b.value), f.value.assets, f.value.missing)))
  }

  predicate Bomb(c: Catalog) {
    c.packed > 0 && c.plain / c.packed > MAX_RATIO
  }

  /** What reading an archive gives. */
  ghost function Read(t: Text, ar: Archive): Result<MapBundle> {
    if ar == [] then Err(EmptyArchive)
    else if |ar| > MAX_ENTRIES then Err(TooManyEntries)
    else
      var c := ListAll(ar);
      if c.Err? then Err(c.error)
      else if Bomb(c.value) then Err(ExpandsTooMuch)
      else if MANIFEST in c.value.names then ReadListed(t, ar, c.value.names)
      else ReadPlain(t, ar, c.value.names)
  }

  // ---------------------------------------------------------------- the loops

  method ListEntries(ar: Archive) returns (r: Result<Catalog>)
    ensures r == ListAll(ar)
  {
    hide Listing;
    var c := Catalog(map[], 0, 0);
    for i := 0 to |ar|
      invariant ListAll(ar[..i]) == Ok(c)
    {
      assert ar[..i + 1][..i] == ar[..i];
      var next := Listing(c, ar[i], i);
      if next.Err? {
        ListStops(ar, i + 1);
        return next;
      }
      c := next.value;
    }
    assert ar[..|ar|] == ar;
    return Ok(c);
  }

  lemma {:induction false} ListStops(ar: Archive, i: nat)
    requires i <= |ar| && ListAll(ar[..i]).Err?
    ensures ListAll(ar) == ListAll(ar[..i])
    decreases |ar|
  {
    if i < |ar| {
      assert ar[..|ar| - 1][..i] == ar[..i];
      ListStops(ar[..|ar| - 1], i);
    } else {
      assert ar[..i] == ar;
    }
  }

  method PickItems(ar: Archive, names: map<string, nat>, items: seq<Item>) returns (r: Result<Found>)
    ensures r == PickAll(ar, names, items)
  {
    hide Picked;
    var f := NOTHING;
    for i := 0 to |items|
      invariant PickAll(ar, names, items[..i]) == Ok(f)
    {
      assert items[..i + 1][..i] == items[..i];
      var next := Picked(ar, names, f, items[i]);
      if next.Err? {
        PickStops(ar, names, items, i + 1);
        return next;
      }
      f := next.value;
    }
    assert items[..|items|] == items;
    return Ok(f);
  }

  lemma {:induction false} PickStops(ar: Archive, names: map<string, nat>, items: seq<Item>, i: nat)
    requires i <= |items| && PickAll(ar, names, items[..i]).Err?
    ensures PickAll(ar, names, items) == PickAll(ar, names, items[..i])
    decreases |items|
  {
    if i < |items| {
      assert items[..|items| - 1][..i] == items[..i];
      PickStops(ar, names, items[..|items| - 1], i);
    } else {
      assert items[..i] == items;
    }
  }

  method LookUp(ar: Archive, names: map<string, nat>, refs: seq<string>) returns (r: Result<Found>)
    ensures r == LookAll(ar, names, refs)
  {
    hide Looked;
    var f := NOTHING;
    for i := 0 to |refs|
      invariant LookAll(ar, names, refs[..i]) == Ok(f)
    {
      assert refs[..i + 1][..i] == refs[..i];
      var next := Looked(ar, names, f, refs[i], i);
      if next.Err? {
        LookStops(ar, names, refs, i + 1);
        return next;
      }
      f := next.value;
    }
    assert refs[..|refs|] == refs;
    return Ok(f);
  }

  lemma {:induction false} LookStops(ar: Archive, names: map<string, nat>, refs: seq<string>, i: nat)
    requires i <= |refs| && LookAll(ar, names, refs[..i]).Err?
    ensures LookAll(ar, names, refs) == LookAll(ar, names, refs[..i])
    decreases |refs|
  {
    if i < |refs| {
      assert refs[..|refs| - 1][..i] == refs[..i];
      LookStops(ar, names, refs[..|refs| - 1], i);
    } else {
      assert refs[..i] == refs;
    }
  }

  method FindMissing(refs: seq<string>, assets: seq<Asset>, missing: seq<string>) returns (out: seq<string>)
    ensures out == AllMissing(refs, assets, missing)
  {
    out := missing;
    for i := 0 to |refs|
      invariant out == AllMissing(refs[..i], assets, missing)
    {
      assert refs[..i + 1][..i] == refs[..i];
      if !HasPath(assets, refs[i]) && refs[i] !in out {
        out := out + [refs[i]];
      }
    }
    assert refs[..|refs|] == refs;
  }

  /** The one yaml at the root, looked for among all names. */
  method FindRoot(names: map<string, nat>) returns (r: Result<string>)
    ensures |Roots(names)| > 1 ==> r == Err(ManyYamls)
    ensures Roots(names) == {} ==> r == Err(NoMap)
    ensures |Roots(names)| == 1 ==> r.Ok? && Roots(names) == {r.value}
  {
    var yaml: string := [];
    var left := names.Keys;
    while left != {}
      invariant left <= names.Keys
      invariant Roots(names) - left == if yaml == [] then {} else {yaml}
      decreases |left|
    {
      var name :| name in left;
      if RootYaml(name) {
        if yaml != [] {
          assert {yaml, name} <= Roots(names);
          SubsetSize({yaml, name}, Roots(names));
          return Err(ManyYamls);
        }
        yaml := name;
      }
      left := left - {name};
    }
    assert Roots(names) - {} == Roots(names);
    if yaml == [] { return Err(NoMap); }
    return Ok(yaml);
  }

  lemma {:induction false} SubsetSize<T>(a: set<T>, b: set<T>)
    requires a <= b
    ensures |a| <= |b|
  {
    assert b == a + (b - a);
  }

  method ReadFolder(t: Text, ar: Archive, names: map<string, nat>) returns (r: Result<MapBundle>)
    ensures r == ReadPlain(t, ar, names)
  {
    var yaml := FindRoot(names);
    if yaml.Err? { return Err(yaml.error); }
    var b := ReadYaml(t, ar, names, yaml.value);
    if b.Err? { return Err(b.error); }
    var refs := CollectRefs(b.value);
    var f := LookUp(ar, names, refs);
    if f.Err? { return Err(f.error); }
    return Ok(MapBundle(yaml.value, b.value, f.value.assets, f.value.missing));
  }

  /** `read_bundle`. */
  method ReadBundle(t: Text, ar: Archive) returns (r: Result<MapBundle>)
    ensures r == Read(t, ar)
  {
    if |ar| == 0 { return Err(EmptyArchive); }
    if |ar| > MAX_ENTRIES { return Err(TooManyEntries); }
    var c := ListEntries(ar);
    if c.Err? { return Err(c.error); }
    if Bomb(c.value) { return Err(ExpandsTooMuch); }
    var names := c.value.names;
    if MANIFEST !in names {
      r := ReadFolder(t, ar, names);
      return;
    }
    var m := t.load(DataOf(ar, names, MANIFEST));
    if m.None? || m.value.format != FORMAT { return Err(BadManifest); }
    if m.value.version <= 0 || m.value.version > VERSION { return Err(BadVersion); }
    if m.value.building == "" || !Safe(m.value.building) { return Err(NoUsableYaml); }
    if m.value.building !in names { return Err(NoYaml); }
    var b := ReadYaml(t, ar, names, m.value.building);
    if b.Err? { return Err(b.error); }
    var f := NOTHING;
    if m.value.assets.Some? {
      if |m.value.assets.value| > MAX_ASSETS { return Err(TooManyAssets); }
      var picked := PickItems(ar, names, m.value.assets.value);
      if picked.Err? { return Err(picked.error); }
      f := picked.value;
    }
    var refs := CollectRefs(b.value);
    var missing := FindMissing(refs, f.assets, f.missing);
    return Ok(MapBundle(m.value.building, b.value, f.assets, missing));
  }
}
