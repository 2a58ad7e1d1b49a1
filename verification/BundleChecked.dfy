/** What a bundle that was read is worth: whatever the archive, success means that everything in it
    was checked and is what the archive holds. */
module BundleChecked {
  import opened BundlePaths
  import opened Bundle
  import opened BundleRead

  // ---------------------------------------------------------------- the directory

  /** Entry `i` is the first file of this name. */
  ghost predicate FirstFile(ar: Archive, name: string, i: nat) {
    && i < |ar| && !ar[i].directory && NameRead(ar[i].name) == name
    && forall j :: 0 <= j < i ==> ar[j].directory || NameRead(ar[j].name) != name
  }

  ghost predicate AllSafe(ar: Archive) {
    forall e :: e in ar && !e.directory ==> Safe(NameRead(e.name))
  }

  function FileBytes(ar: Archive): nat {
    if ar == [] then 0
    else FileBytes(ar[..|ar| - 1]) + (if ar[|ar| - 1].directory then 0 else |ar[|ar| - 1].data|)
  }

  function FilePacked(ar: Archive): nat {
    if ar == [] then 0
    else FilePacked(ar[..|ar| - 1]) + (if ar[|ar| - 1].directory then 0 else ar[|ar| - 1].packed)
  }

  /** The directory lists exactly the files, each name with its first one, and adds up their sizes. */
  ghost predicate Catalogued(c: Catalog, ar: Archive) {
    && (forall n :: n in c.names ==> FirstFile(ar, n, c.names[n]))
    && (forall i :: 0 <= i < |ar| && !ar[i].directory ==> NameRead(ar[i].name) in c.names)
    && c.plain == FileBytes(ar) && c.packed == FilePacked(ar)
  }

  lemma CatalogMore(c: Catalog, init: Archive, e: Entry)
    requires Catalogued(c, init) && Listing(c, e, |init|).Ok?
    ensures Catalogued(Listing(c, e, |init|).value, init + [e])
  {
    hide Safe, NameRead;
    var ar, now := init + [e], Listing(c, e, |init|).value;
    assert ar[..|ar| - 1] == init && ar[|init|] == e;
    forall n | n in now.names ensures FirstFile(ar, n, now.names[n]) {
      if n in c.names {
        assert FirstFile(init, n, c.names[n]);
      } else {
        assert forall i :: 0 <= i < |init| ==> init[i].directory || NameRead(init[i].name) != n;
      }
    }
  }

  lemma {:induction false} BytesGrow(ar: Archive, n: nat)
    requires n <= |ar|
    ensures FileBytes(ar[..n]) <= FileBytes(ar)
    decreases |ar|
  {
    if n == |ar| {
      assert ar[..n] == ar;
    } else {
      assert ar[..|ar| - 1][..n] == ar[..n];
      BytesGrow(ar[..|ar| - 1], n);
    }
  }

  /** The directory is accepted exactly when every file's name is safe and the files fit the cap. */
  lemma {:induction false} ListChecked(ar: Archive)
    ensures ListAll(ar).Ok? <==> AllSafe(ar) && FileBytes(ar) <= MAX_BYTES
    ensures ListAll(ar).Ok? ==> Catalogued(ListAll(ar).value, ar)
  {
    hide Safe, NameRead;
    if ar != [] {
      var init, e := ar[..|ar| - 1], ar[|ar| - 1];
      ListChecked(init);
      BytesGrow(ar, |init|);
      assert ar == init + [e];
      hide FirstFile;
      if ListAll(init).Ok? && Listing(ListAll(init).value, e, |init|).Ok? {
        CatalogMore(ListAll(init).value, init, e);
      }
    }
  }

  // ---------------------------------------------------------------- the images

  /** These images were taken from the archive. */
  ghost predicate Taken(ar: Archive, assets: seq<Asset>) {
    forall a :: a in assets ==> TakenFrom(ar, a)
  }

  ghost predicate TakenFrom(ar: Archive, a: Asset) {
    a.path != "" && exists i: nat :: FirstFile(ar, a.entry, i) && a.bytes == ar[i].data
  }

  ghost predicate EntriesDiffer(assets: seq<Asset>) {
    forall i, j :: 0 <= i < j < |assets| ==> assets[i].entry != assets[j].entry
  }

  function Bulk(assets: seq<Asset>): nat {
    if assets == [] then 0 else Bulk(assets[..|assets| - 1]) + |assets[|assets| - 1].bytes|
  }

  /** What has been found so far: images of the archive, each entry once, within the cap; what is missing
      the archive does not have. */
  ghost predicate FoundWell(ar: Archive, f: Found) {
    && Taken(ar, f.assets) && EntriesDiffer(f.assets) && (forall a :: a in f.assets ==> a.entry in f.seen)
    && f.size == Bulk(f.assets) <= MAX_BYTES
  }

  lemma AssetMore(ar: Archive, names: map<string, nat>, f: Found, a: Asset, now: Found)
    requires FoundWell(ar, f) && a.path != "" && a.entry !in f.seen && a.entry in names
    requires FirstFile(ar, a.entry, names[a.entry]) && a.bytes == ar[names[a.entry]].data
    requires now.assets == f.assets + [a] && now.seen == f.seen + {a.entry}
    requires now.size == f.size + |a.bytes| && now.size <= MAX_BYTES
    ensures FoundWell(ar, now)
  {
    assert now.assets[..|f.assets|] == f.assets;
    assert TakenFrom(ar, a);
    hide FirstFile, TakenFrom;
    forall b | b in now.assets ensures TakenFrom(ar, b) {
      if b !in f.assets { assert b == a; }
    }
    forall i, j | 0 <= i < j < |now.assets| ensures now.assets[i].entry != now.assets[j].entry {
      if j == |f.assets| { assert f.assets[i] in f.assets; }
    }
  }

  lemma PickedWell(ar: Archive, c: Catalog, f: Found, item: Item)
    requires Catalogued(c, ar) && FoundWell(ar, f) && Picked(ar, c.names, f, item).Ok?
    ensures var now := Picked(ar, c.names, f, item).value; FoundWell(ar, now) && |now.assets| <= |f.assets| + 1
  {
    hide Safe, FirstFile, Taken, EntriesDiffer;
    var now := Picked(ar, c.names, f, item).value;
    if now.assets != f.assets {
      IndexFits(ar, c, item.entry);
      AssetMore(ar, c.names, f, Asset(item.path, item.entry, DataOf(ar, c.names, item.entry)), now);
    }
  }

  lemma IndexFits(ar: Archive, c: Catalog, name: string)
    requires Catalogued(c, ar) && name in c.names
    ensures c.names[name] < |ar| && FirstFile(ar, name, c.names[name])
  {
  }

  lemma {:induction false} PickWell(ar: Archive, c: Catalog, items: seq<Item>)
    requires Catalogued(c, ar) && PickAll(ar, c.names, items).Ok?
    ensures var f := PickAll(ar, c.names, items).value; FoundWell(ar, f) && |f.assets| <= |items|
  {
    hide Picked, Catalogued;
    if items != [] {
      PickWell(ar, c, items[..|items| - 1]);
      PickedWell(ar, c, PickAll(ar, c.names, items[..|items| - 1]).value, items[|items| - 1]);
      hide FoundWell;
    }
  }

  lemma LookedWell(ar: Archive, c: Catalog, f: Found, ref: string, n: nat)
    requires Catalogued(c, ar) && FoundWell(ar, f) && Looked(ar, c.names, f, ref, n).Ok? && ref != ""
    ensures var now := Looked(ar, c.names, f, ref, n).value; FoundWell(ar, now) && |now.assets| <= |f.assets| + 1
  {
    hide Safe, FirstFile, Taken, EntriesDiffer;
    var now := Looked(ar, c.names, f, ref, n).value;
    if now.assets != f.assets {
      IndexFits(ar, c, ref);
      AssetMore(ar, c.names, f, Asset(ref, ref, DataOf(ar, c.names, ref)), now);
    }
  }

  /** Every reference looked at is an image found, or missing. */
  ghost predicate Covered(f: Found, refs: seq<string>) {
    (forall r :: r in f.seen ==> HasPath(f.assets, r) || r in f.missing) && forall r :: r in refs ==> r in f.seen
  }

  lemma PathStays(assets: seq<Asset>, a: Asset, r: string)
    ensures HasPath(assets, r) || r == a.path ==> HasPath(assets + [a], r)
  {
    var now := assets + [a];
    assert now[|assets|] == a;
    if HasPath(assets, r) {
      var k :| 0 <= k < |assets| && assets[k].path == r;
      assert now[k].path == r;
    }
  }

  lemma LookedCovers(ar: Archive, names: map<string, nat>, f: Found, refs: seq<string>, ref: string, n: nat)
    requires Covered(f, refs) && Looked(ar, names, f, ref, n).Ok?
    ensures Covered(Looked(ar, names, f, ref, n).value, refs + [ref])
  {
    hide HasPath, DataOf;
    var now := Looked(ar, names, f, ref, n).value;
    if |now.assets| > |f.assets| {
      var a := Asset(ref, ref, DataOf(ar, names, ref));
      assert now.assets == f.assets + [a];
      forall r | r in now.seen ensures HasPath(now.assets, r) || r in now.missing {
        PathStays(f.assets, a, r);
      }
    }
  }

  lemma {:induction false} LookWell(ar: Archive, c: Catalog, refs: seq<string>)
    requires Catalogued(c, ar) && LookAll(ar, c.names, refs).Ok? && "" !in refs
    ensures var f := LookAll(ar, c.names, refs).value; FoundWell(ar, f) && |f.assets| <= |refs| <= MAX_ASSETS && Covered(f, refs)
  {
    if refs != [] {
      var init, ref := refs[..|refs| - 1], refs[|refs| - 1];
      assert refs == init + [ref] && ref in refs;
      LookWell(ar, c, init);
      var f := LookAll(ar, c.names, init).value;
      assert |refs| <= MAX_ASSETS;
      LookedWell(ar, c, f, ref, |init|);
      LookedCovers(ar, c.names, f, init, ref, |init|);
      hide Looked, FoundWell, Covered, Catalogued;
    }
  }

  lemma {:induction false} MissingCovers(refs: seq<string>, assets: seq<Asset>, missing: seq<string>, r: string)
    ensures r in refs ==> HasPath(assets, r) || r in AllMissing(refs, assets, missing)
    ensures r in missing ==> r in AllMissing(refs, assets, missing)
  {
    hide HasPath;
    if refs != [] {
      var init, ref := refs[..|refs| - 1], refs[|refs| - 1];
      assert refs == init + [ref];
      MissingCovers(init, assets, missing, r);
    }
  }

  // ---------------------------------------------------------------- reading

  /** A bundle the archive vouches for: its yaml is a file of the archive that parses to the building, its
      images are files of the archive, each once, all of it within the caps; every image the
      building shows is there or known to be missing. */
  ghost predicate Vouched(t: Text, ar: Archive, m: MapBundle) {
    && 1 <= |ar| <= MAX_ENTRIES && AllSafe(ar) && FileBytes(ar) <= MAX_BYTES
    && (FilePacked(ar) == 0 || FileBytes(ar) / FilePacked(ar) <= MAX_RATIO)
    && (exists i: nat :: FirstFile(ar, m.yamlName, i) && t.parse(ar[i].data) == Some(m.building))
    && Taken(ar, m.assets) && EntriesDiffer(m.assets) && |m.assets| <= MAX_ASSETS && Bulk(m.assets) <= MAX_BYTES
    && forall ref :: Shows(m.building, ref) ==> HasPath(m.assets, ref) || ref in m.missing
  }

  /** A manifest of the archive that names this yaml, in a version this reader knows. */
  ghost predicate Listed(t: Text, ar: Archive, yaml: string) {
    exists i: nat :: FirstFile(ar, MANIFEST, i) && t.load(ar[i].data).Some?
      && var f := t.load(ar[i].data).value; f.format == FORMAT && 1 <= f.version <= VERSION && f.building == yaml
  }

  /** No manifest, and this is the one yaml at the root. */
  ghost predicate OnlyYaml(ar: Archive, yaml: string) {
    && (forall i :: 0 <= i < |ar| && !ar[i].directory ==> NameRead(ar[i].name) != MANIFEST)
    && RootYaml(yaml)
    && forall i :: 0 <= i < |ar| && !ar[i].directory && RootYaml(NameRead(ar[i].name)) ==> NameRead(ar[i].name) == yaml
  }

  lemma YamlRead(t: Text, ar: Archive, c: Catalog, yaml: string)
    requires Catalogued(c, ar) && yaml in c.names && ReadYaml(t, ar, c.names, yaml).Ok?
    ensures exists i: nat :: FirstFile(ar, yaml, i) && t.parse(ar[i].data) == Some(ReadYaml(t, ar, c.names, yaml).value)
  {
    hide FirstFile;
    IndexFits(ar, c, yaml);
  }

  lemma ListedChecked(t: Text, ar: Archive, c: Catalog)
    requires Catalogued(c, ar) && MANIFEST in c.names && ReadListed(t, ar, c.names).Ok?
    ensures var m := ReadListed(t, ar, c.names).value;
            && Listed(t, ar, m.yamlName)
            && (exists i: nat :: FirstFile(ar, m.yamlName, i) && t.parse(ar[i].data) == Some(m.building))
            && Taken(ar, m.assets) && EntriesDiffer(m.assets) && |m.assets| <= MAX_ASSETS && Bulk(m.assets) <= MAX_BYTES
            && forall ref :: Shows(m.building, ref) ==> HasPath(m.assets, ref) || ref in m.missing
  {
    hide FirstFile, Catalogued, Taken, EntriesDiffer, Shows, HasPath, Safe, PickAll, AllMissing, Refs;
    var m := ReadListed(t, ar, c.names).value;
    var list := t.load(DataOf(ar, c.names, MANIFEST)).value;
    IndexFits(ar, c, MANIFEST);
    YamlRead(t, ar, c, m.yamlName);
    var items := if list.assets.Some? then list.assets.value else [];
    PickWell(ar, c, items);
    var f := PickAll(ar, c.names, items).value;
    forall ref | Shows(m.building, ref) ensures HasPath(m.assets, ref) || ref in m.missing {
      RefsAre(m.building, ref);
      MissingCovers(Refs(m.building), f.assets, f.missing, ref);
    }
  }

  lemma PlainChecked(t: Text, ar: Archive, c: Catalog)
    requires Catalogued(c, ar) && MANIFEST !in c.names && ReadPlain(t, ar, c.names).Ok?
    ensures var m := ReadPlain(t, ar, c.names).value;
            && OnlyYaml(ar, m.yamlName)
            && (exists i: nat :: FirstFile(ar, m.yamlName, i) && t.parse(ar[i].data) == Some(m.building))
            && Taken(ar, m.assets) && EntriesDiffer(m.assets) && |m.assets| <= MAX_ASSETS && Bulk(m.assets) <= MAX_BYTES
            && forall ref :: Shows(m.building, ref) ==> HasPath(m.assets, ref) || ref in m.missing
  {
    var m := ReadPlain(t, ar, c.names).value;
    PlainRoot(ar, c, m.yamlName);
    hide FirstFile, Catalogued, Taken, EntriesDiffer, Shows, HasPath, LookAll, Refs, RootYaml;
    YamlRead(t, ar, c, m.yamlName);
    RefsAre(m.building, "");
    LookWell(ar, c, Refs(m.building));
    forall ref | Shows(m.building, ref) ensures HasPath(m.assets, ref) || ref in m.missing {
      RefsAre(m.building, ref);
    }
  }

  lemma PlainRoot(ar: Archive, c: Catalog, yaml: string)
    requires Catalogued(c, ar) && MANIFEST !in c.names && yaml in Roots(c.names) && |Roots(c.names)| <= 1
    ensures OnlyYaml(ar, yaml)
  {
    hide FirstFile, RootYaml, NameRead;
    forall n | n in Roots(c.names) ensures n == yaml {
      if n != yaml {
        assert |{n, yaml}| == 2;
        SubsetSize({n, yaml}, Roots(c.names));
      }
    }
    forall i | 0 <= i < |ar| && !ar[i].directory
      ensures NameRead(ar[i].name) != MANIFEST && (RootYaml(NameRead(ar[i].name)) ==> NameRead(ar[i].name) == yaml)
    {
      assert RootYaml(NameRead(ar[i].name)) ==> NameRead(ar[i].name) in Roots(c.names);
    }
  }

  /** Whatever the archive: a bundle that is read is vouched for, by its manifest or, without one, by being
      the only map there is. */
  lemma ReadChecked(t: Text, ar: Archive)
    requires Read(t, ar).Ok?
    ensures var m := Read(t, ar).value; Vouched(t, ar, m) && (Listed(t, ar, m.yamlName) || OnlyYaml(ar, m.yamlName))
  {
    hide Catalogued, Taken, EntriesDiffer, Shows, HasPath, FirstFile, AllSafe, ListAll, ReadListed, ReadPlain, Listed, OnlyYaml;
    ListChecked(ar);
    var c := ListAll(ar).value;
    CatalogSizes(c, ar);
    if MANIFEST in c.names {
      ListedChecked(t, ar, c);
    } else {
      PlainChecked(t, ar, c);
    }
  }

  lemma CatalogSizes(c: Catalog, ar: Archive)
    requires Catalogued(c, ar)
    ensures c.plain == FileBytes(ar) && c.packed == FilePacked(ar)
  {
  }
}
