/** What packing and reading a bundle promise each other. */
module BundleRoundTrip {
  import opened BundlePaths
  import opened Bundle
  import opened BundleRead

  predicate Readable(read: string -> Option<Bytes>, ref: string) {
    read(ref).Some? && read(ref).value != []
  }

  // ---------------------------------------------------------------- what collecting keeps

  /** Where an image may have been put: at its own path, or numbered up to `external`. */
  ghost predicate WellPlaced(a: Asset, yaml: string, external: nat) {
    if OwnPath(a.path, yaml) then a.entry == a.path else exists k: nat :: k <= external && a.entry == Flat(a.path, k)
  }

  ghost predicate AssetOk(a: Asset, yaml: string, c: Collected, read: string -> Option<Bytes>) {
    && a.path in c.seen && Readable(read, a.path) && a.bytes == read(a.path).value
    && WellPlaced(a, yaml, c.external)
  }

  /** No two images have the same path or the same entry. */
  ghost predicate Distinct(assets: seq<Asset>) {
    forall i, j :: 0 <= i < j < |assets| ==> assets[i].path != assets[j].path && assets[i].entry != assets[j].entry
  }

  ghost predicate Kept(c: Collected, yaml: string, read: string -> Option<Bytes>) {
    && (forall i :: 0 <= i < |c.assets| ==> AssetOk(c.assets[i], yaml, c, read))
    && Distinct(c.assets)
    && (forall ref :: ref in c.missing <==> ref in c.seen && !Readable(read, ref))
    && (forall ref :: HasPath(c.assets, ref) <==> ref in c.seen && Readable(read, ref))
  }

  /** Two placed images of different paths have different entries, one of them new. */
  lemma PlacedApart(a: Asset, b: Asset, yaml: string, external: nat)
    requires WellPlaced(a, yaml, external) && a.path != b.path
    requires if OwnPath(b.path, yaml) then b.entry == b.path else b.entry == Flat(b.path, external + 1)
    ensures a.entry != b.entry
  {
    hide Flat, Portable;
    if !OwnPath(a.path, yaml) {
      var k: nat :| k <= external && a.entry == Flat(a.path, k);
      FlatDistinct(a.path, b.path, k, external + 1);
      FlatExternal(a.path, k);
    }
    FlatExternal(b.path, external + 1);
  }

  lemma TookKeeps(c: Collected, ref: string, yaml: string, read: string -> Option<Bytes>)
    requires Kept(c, yaml, read)
    ensures Kept(Took(c, ref, yaml, read), yaml, read) && Took(c, ref, yaml, read).seen == c.seen + {ref}
  {
    var now := Took(c, ref, yaml, read);
    if ref in c.seen {
      assert c.seen + {ref} == c.seen;
    } else if !Readable(read, ref) {
      assert now.assets == c.assets;
      forall i | 0 <= i < |now.assets| ensures AssetOk(now.assets[i], yaml, now, read) {
        assert AssetOk(c.assets[i], yaml, c, read);
      }
    } else {
      PackedKeeps(c, ref, yaml, read);
    }
  }

  lemma PackedKeeps(c: Collected, ref: string, yaml: string, read: string -> Option<Bytes>)
    requires Kept(c, yaml, read) && ref !in c.seen && Readable(read, ref)
    ensures Kept(Took(c, ref, yaml, read), yaml, read)
  {
    var now := Took(c, ref, yaml, read);
    var a := now.assets[|c.assets|];
    PackedOk(c, ref, yaml, read);
    PathsGrow(c.assets, a);
    hide AssetOk, Readable, OwnPath, Flat, HasPath, Took;
  }

  lemma PlacedLater(a: Asset, yaml: string, external: nat, later: nat)
    requires WellPlaced(a, yaml, external) && external <= later
    ensures WellPlaced(a, yaml, later)
  {
    hide OwnPath, Flat;
  }

  lemma PackedNew(c: Collected, ref: string, yaml: string, read: string -> Option<Bytes>)
    requires ref !in c.seen && Readable(read, ref)
    ensures var now := Took(c, ref, yaml, read);
            && |now.assets| == |c.assets| + 1 && now.assets == c.assets + [now.assets[|c.assets|]]
            && now.missing == c.missing && now.seen == c.seen + {ref} && c.external <= now.external
            && var a := now.assets[|c.assets|];
            && a.path == ref && AssetOk(a, yaml, now, read)
            && a.entry == if OwnPath(ref, yaml) then ref else Flat(ref, c.external + 1)
  {
    var now := Took(c, ref, yaml, read);
    var a := now.assets[|c.assets|];
    assert !OwnPath(ref, yaml) ==> now.external == c.external + 1 && a.entry == Flat(ref, c.external + 1);
    hide OwnPath, Flat, Readable;
  }

  /** The image just packed is well placed, and apart from all before it. */
  lemma PackedOk(c: Collected, ref: string, yaml: string, read: string -> Option<Bytes>)
    requires Kept(c, yaml, read) && ref !in c.seen && Readable(read, ref)
    ensures var now := Took(c, ref, yaml, read);
            && |now.assets| == |c.assets| + 1 && now.assets == c.assets + [now.assets[|c.assets|]]
            && now.assets[|c.assets|].path == ref && Distinct(now.assets)
            && now.missing == c.missing && now.seen == c.seen + {ref}
            && forall i :: 0 <= i < |now.assets| ==> AssetOk(now.assets[i], yaml, now, read)
  {
    hide OwnPath, Flat, Readable, Took, WellPlaced;
    var now := Took(c, ref, yaml, read);
    PackedNew(c, ref, yaml, read);
    var a := now.assets[|c.assets|];
    forall i | 0 <= i < |c.assets| ensures AssetOk(now.assets[i], yaml, now, read) && c.assets[i].entry != a.entry && c.assets[i].path != ref {
      assert AssetOk(c.assets[i], yaml, c, read);
      PlacedApart(c.assets[i], a, yaml, c.external);
      PlacedLater(c.assets[i], yaml, c.external, now.external);
    }
  }

  lemma PathsGrow(assets: seq<Asset>, a: Asset)
    ensures forall r :: HasPath(assets + [a], r) <==> HasPath(assets, r) || r == a.path
  {
    var now := assets + [a];
    forall r ensures HasPath(now, r) <==> HasPath(assets, r) || r == a.path {
      if HasPath(assets, r) {
        var k :| 0 <= k < |assets| && assets[k].path == r;
        assert now[k].path == r;
      }
      assert now[|assets|].path == a.path;
    }
  }

  function Members(refs: seq<string>): set<string> {
    set r | r in refs
  }

  lemma {:induction false} TookAllKeeps(refs: seq<string>, yaml: string, read: string -> Option<Bytes>)
    ensures var c := TookAll(refs, yaml, read); Kept(c, yaml, read) && c.seen == Members(refs)
  {
    if refs != [] {
      var init, last := refs[..|refs| - 1], refs[|refs| - 1];
      TookAllKeeps(init, yaml, read);
      TookKeeps(TookAll(init, yaml, read), last, yaml, read);
      assert refs == init + [last];
      assert Members(refs) == Members(init) + {last};
    }
  }

  /** Every image the building shows is packed, with its bytes, or missing, and never both; nothing else
      is either. */
  lemma PackedOrMissing(b: Building, yaml: string, read: string -> Option<Bytes>, ref: string)
    ensures var m := Collect(b, yaml, read);
            && (HasPath(m.assets, ref) <==> Shows(b, ref) && Readable(read, ref))
            && (ref in m.missing <==> Shows(b, ref) && !Readable(read, ref))
            && forall a :: a in m.assets ==> read(a.path) == Some(a.bytes) && a.bytes != []
  {
    TookAllKeeps(Refs(b), yaml, read);
    RefsAre(b, ref);
    var c := TookAll(Refs(b), yaml, read);
    hide Shows, Refs, TookAll, WellPlaced;
    forall i | 0 <= i < |c.assets| ensures read(c.assets[i].path) == Some(c.assets[i].bytes) && c.assets[i].bytes != [] {
      assert AssetOk(c.assets[i], yaml, c, read);
    }
  }

  /** Entries are pairwise distinct, and none is the manifest's or the yaml's. */
  lemma EntriesApart(b: Building, yaml: string, read: string -> Option<Bytes>)
    ensures var m := Collect(b, yaml, read);
            && Distinct(m.assets)
            && forall i :: 0 <= i < |m.assets| ==>
                 m.assets[i].entry != MANIFEST && (!(EXTERNAL <= yaml) ==> m.assets[i].entry != yaml)
  {
    TookAllKeeps(Refs(b), yaml, read);
    var c := TookAll(Refs(b), yaml, read);
    forall i | 0 <= i < |c.assets| ensures c.assets[i].entry != MANIFEST && (!(EXTERNAL <= yaml) ==> c.assets[i].entry != yaml) {
      assert AssetOk(c.assets[i], yaml, c, read);
      PlacedAside(c.assets[i], yaml, c.external);
    }
  }

  /** An image keeps its path as its entry exactly when the path is portable and nobody else's; any other
      goes under a numbered name of its own that ends in its last part. */
  lemma EntriesWhere(b: Building, yaml: string, read: string -> Option<Bytes>, a: Asset)
    requires a in Collect(b, yaml, read).assets
    ensures a.entry == a.path <==> Portable(a.path) && a.path != MANIFEST && a.path != yaml && !(EXTERNAL <= a.path)
    ensures a.entry != a.path ==> EXTERNAL <= a.entry && EndsWith(a.entry, Basename(a.path))
  {
    TookAllKeeps(Refs(b), yaml, read);
    var c := TookAll(Refs(b), yaml, read);
    hide Refs, TookAll, Basename, Decimal, Portable;
    var i :| 0 <= i < |c.assets| && c.assets[i] == a;
    assert AssetOk(c.assets[i], yaml, c, read);
    if !OwnPath(a.path, yaml) {
      var k: nat :| a.entry == Flat(a.path, k);
      FlatMoves(a.path, k);
      assert a.entry == (EXTERNAL + Decimal(k) + "_") + Basename(a.path);
    }
  }

  predicate EndsWith(s: string, end: string) {
    |end| <= |s| && s[|s| - |end|..] == end
  }

  lemma PlacedAside(a: Asset, yaml: string, external: nat)
    requires WellPlaced(a, yaml, external)
    ensures a.entry != MANIFEST && (!(EXTERNAL <= yaml) ==> a.entry != yaml)
  {
    hide Flat, Portable;
    assert MANIFEST[0] == 'm' && EXTERNAL[0] == '_';
    if !OwnPath(a.path, yaml) {
      var k: nat :| k <= external && a.entry == Flat(a.path, k);
      FlatExternal(a.path, k);
    }
  }

  // ---------------------------------------------------------------- the list of missing images

  /** What the yaml names and no image backs, looked up again, is what collecting found missing. */
  lemma {:induction false} MissingAgain(refs: seq<string>, yaml: string, read: string -> Option<Bytes>, assets: seq<Asset>)
    requires forall ref :: ref in refs ==> (HasPath(assets, ref) <==> Readable(read, ref))
    ensures AllMissing(refs, assets, []) == TookAll(refs, yaml, read).missing
  {
    if refs != [] {
      var init, last := refs[..|refs| - 1], refs[|refs| - 1];
      MissingAgain(init, yaml, read, assets);
      TookAllKeeps(init, yaml, read);
      assert last in refs;
      hide OwnPath, Flat, HasPath;
    }
  }

  // ---------------------------------------------------------------- the directory

  function Total(ar: Archive): nat {
    if ar == [] then 0 else Total(ar[..|ar| - 1]) + |ar[|ar| - 1].data|
  }

  function PackedTotal(ar: Archive): nat {
    if ar == [] then 0 else PackedTotal(ar[..|ar| - 1]) + ar[|ar| - 1].packed
  }

  /** A file whose name the reader sees whole and finds safe. */
  predicate Plain(e: Entry) {
    !e.directory && Safe(e.name) && |e.name| <= MAX_NAME
  }

  ghost predicate PlainArchive(ar: Archive) {
    && (forall i :: 0 <= i < |ar| ==> Plain(ar[i]))
    && (forall i, j :: 0 <= i < j < |ar| ==> ar[i].name != ar[j].name)
  }

  /** Every entry is found by its name. */
  ghost predicate Finds(names: map<string, nat>, ar: Archive) {
    && (forall i :: 0 <= i < |ar| ==> ar[i].name in names && names[ar[i].name] == i)
    && (forall n :: n in names ==> exists i :: 0 <= i < |ar| && ar[i].name == n)
  }

  ghost predicate NewName(ar: Archive, e: Entry) {
    forall i :: 0 <= i < |ar| ==> ar[i].name != e.name
  }

  lemma PlainSplit(ar: Archive)
    requires PlainArchive(ar) && ar != []
    ensures var init, e := ar[..|ar| - 1], ar[|ar| - 1];
            && PlainArchive(init) && Plain(e) && ar == init + [e]
            && NewName(init, e)
  {
    hide Plain;
    var init := ar[..|ar| - 1];
    assert forall i :: 0 <= i < |init| ==> init[i] == ar[i];
  }

  /** The directory of these entries: all found, and their sizes added up. */
  ghost predicate Lists(c: Catalog, ar: Archive) {
    Finds(c.names, ar) && c.plain == Total(ar) && c.packed == PackedTotal(ar)
  }

  lemma {:induction false} ListsPlain(ar: Archive)
    requires PlainArchive(ar) && Total(ar) <= MAX_BYTES
    ensures ListAll(ar).Ok? && Lists(ListAll(ar).value, ar)
  {
    hide Plain, Listing, Lists, PlainArchive, NewName, PackedTotal;
    if ar == [] {
      ListsNone(ar);
    } else {
      PlainSplit(ar);
      var init, e := ar[..|ar| - 1], ar[|ar| - 1];
      ListsPlain(init);
      ListsOne(ListAll(init).value, init, e);
    }
  }

  lemma ListsNone(ar: Archive)
    requires ar == []
    ensures Lists(Catalog(map[], 0, 0), ar)
  {
  }

  lemma ListsOne(c: Catalog, init: Archive, e: Entry)
    requires Lists(c, init) && Plain(e) && NewName(init, e) && Total(init) + |e.data| <= MAX_BYTES
    ensures var r := Listing(c, e, |init|); r.Ok? && Lists(r.value, init + [e])
  {
    hide Safe;
    assert e.name !in c.names;
    var now, ar := c.names[e.name := |init|], init + [e];
    assert ar[|init|] == e && ar[..|ar| - 1] == init;
    FindsMore(c.names, init, e);
  }

  lemma FindsMore(names: map<string, nat>, init: Archive, e: Entry)
    requires Finds(names, init) && e.name !in names
    ensures Finds(names[e.name := |init|], init + [e])
  {
    var now, ar := names[e.name := |init|], init + [e];
    assert ar[|init|] == e;
    forall n | n in now ensures exists i :: 0 <= i < |ar| && ar[i].name == n {
      if n in names {
        var i :| 0 <= i < |init| && init[i].name == n;
        assert ar[i].name == n;
      }
    }
  }

  // ---------------------------------------------------------------- the images

  /** Every image is stored where the directory says. */
  ghost predicate Stored(ar: Archive, names: map<string, nat>, assets: seq<Asset>) {
    forall i :: 0 <= i < |assets| ==> assets[i].entry in names && DataOf(ar, names, assets[i].entry) == assets[i].bytes
  }

  function Size(assets: seq<Asset>): nat {
    if assets == [] then 0 else Size(assets[..|assets| - 1]) + |assets[|assets| - 1].bytes|
  }

  predicate Packable(assets: seq<Asset>) {
    forall i :: 0 <= i < |assets| ==> assets[i].path != "" && Safe(assets[i].entry)
  }

  function EntriesOf(assets: seq<Asset>): set<string> {
    set i | 0 <= i < |assets| :: assets[i].entry
  }

  lemma AssetsSplit(ar: Archive, names: map<string, nat>, assets: seq<Asset>)
    requires Stored(ar, names, assets) && Distinct(assets) && Packable(assets) && assets != []
    ensures var init, a := assets[..|assets| - 1], assets[|assets| - 1];
            && Stored(ar, names, init) && Distinct(init) && Packable(init)
            && a.entry in names && DataOf(ar, names, a.entry) == a.bytes && a.path != "" && Safe(a.entry)
            && a.entry !in EntriesOf(init) && EntriesOf(assets) == EntriesOf(init) + {a.entry}
            && assets == init + [a] && Items(assets)[..|assets| - 1] == Items(init)
  {
    hide Safe, DataOf;
    var init := assets[..|assets| - 1];
    assert forall i :: 0 <= i < |init| ==> init[i] == assets[i];
  }

  lemma PicksOne(ar: Archive, names: map<string, nat>, f: Found, a: Asset)
    requires a.entry in names && DataOf(ar, names, a.entry) == a.bytes && a.path != "" && Safe(a.entry)
    requires a.entry !in f.seen && f.size + |a.bytes| <= MAX_BYTES
    ensures Picked(ar, names, f, Item(a.path, a.entry))
         == Ok(Found(f.assets + [a], f.missing, f.seen + {a.entry}, f.size + |a.bytes|))
  {
  }

  lemma {:induction false} PicksAll(ar: Archive, names: map<string, nat>, assets: seq<Asset>)
    requires Stored(ar, names, assets) && Distinct(assets) && Packable(assets) && Size(assets) <= MAX_BYTES
    ensures PickAll(ar, names, Items(assets)) == Ok(Found(assets, [], EntriesOf(assets), Size(assets)))
    decreases |assets|
  {
    if assets == [] {
      assert EntriesOf(assets) == {};
    } else {
      AssetsSplit(ar, names, assets);
      hide Safe, DataOf, Picked, EntriesOf, Stored, Distinct, Packable;
      var init, a := assets[..|assets| - 1], assets[|assets| - 1];
      PicksAll(ar, names, init);
      PicksOne(ar, names, PickAll(ar, names, Items(init)).value, a);
    }
  }

  // ---------------------------------------------------------------- the round trip

  /** The sizes and counts the reader allows. */
  ghost predicate WithinCaps(ar: Archive) {
    && |ar| <= MAX_ENTRIES && Total(ar) <= MAX_BYTES
    && !(PackedTotal(ar) > 0 && Total(ar) / PackedTotal(ar) > MAX_RATIO)
  }

  /** What `WriteBundle` asks of the names. */
  ghost predicate Writable(m: MapBundle) {
    Addable(m.yamlName) && forall a :: a in m.assets ==> Addable(a.entry)
  }

  ghost predicate ShortNames(m: MapBundle) {
    |m.yamlName| <= MAX_NAME && forall i :: 0 <= i < |m.assets| ==> |m.assets[i].entry| <= MAX_NAME
  }

  /** The names in the archive differ. */
  ghost predicate OwnNames(m: MapBundle) {
    && m.yamlName != MANIFEST && Distinct(m.assets)
    && forall i :: 0 <= i < |m.assets| ==> m.assets[i].entry != MANIFEST && m.assets[i].entry != m.yamlName
  }

  lemma {:induction false} TotalOfAssets(head: Archive, assets: seq<Asset>)
    ensures Total(head + AssetEntries(assets)) == Total(head) + Size(assets)
    decreases |assets|
  {
    var ar := head + AssetEntries(assets);
    if assets == [] {
      assert ar == head;
    } else {
      var init := assets[..|assets| - 1];
      assert ar[..|ar| - 1] == head + AssetEntries(init);
      TotalOfAssets(head, init);
    }
  }

  lemma ManifestIsPlain()
    ensures Safe(MANIFEST) && !EndsInSlash(MANIFEST) && |MANIFEST| <= MAX_NAME
  {
    NoSlashParts(MANIFEST);
    var parts := Parts(MANIFEST);
    assert parts[..0] == [];
    assert DepthOf(parts[..0]) == Below(0);
  }

  lemma {:induction false} NoSlashParts(path: string)
    requires '/' !in path
    ensures Parts(path) == [path]
  {
    if path != [] {
      NoSlashParts(path[..|path| - 1]);
      assert path[|path| - 1] in path;
      assert path == path[..|path| - 1] + [path[|path| - 1]];
    }
  }

  lemma ArchiveIsPlain(t: Text, m: MapBundle, manifest: Bytes, pack: Bytes -> nat)
    requires Writable(m) && ShortNames(m) && OwnNames(m)
    ensures PlainArchive(ArchiveOf(t, m, manifest, pack))
  {
    hide Safe, EndsInSlash;
    ManifestIsPlain();
    var ar := ArchiveOf(t, m, manifest, pack);
    forall i | 0 <= i < |ar| ensures Plain(ar[i]) {
      if i >= 2 {
        assert m.assets[i - 2] in m.assets;
        assert ar[i] == AssetEntries(m.assets)[i - 2];
      }
    }
    forall i, j | 0 <= i < j < |ar| ensures ar[i].name != ar[j].name {
      if j >= 2 {
        assert ar[j] == AssetEntries(m.assets)[j - 2] && ar[j].name == m.assets[j - 2].entry;
        if i >= 2 {
          assert ar[i] == AssetEntries(m.assets)[i - 2] && ar[i].name == m.assets[i - 2].entry;
        } else {
          assert ar[i].name == if i == 0 then MANIFEST else m.yamlName;
        }
      }
    }
  }

  lemma FindsAssets(ar: Archive, names: map<string, nat>, head: Archive, assets: seq<Asset>)
    requires Finds(names, ar) && ar == head + AssetEntries(assets)
    ensures Stored(ar, names, assets)
  {
    forall i | 0 <= i < |assets| ensures assets[i].entry in names && DataOf(ar, names, assets[i].entry) == assets[i].bytes {
      var e := ar[|head| + i];
      assert e == AssetEntries(assets)[i];
    }
  }

  lemma FindsAt(ar: Archive, names: map<string, nat>, i: nat)
    requires Finds(names, ar) && i < |ar|
    ensures ar[i].name in names && DataOf(ar, names, ar[i].name) == ar[i].data
  {
  }

  /** The listed reading of a bundle whose entries are all found. */
  lemma ReadsListed(t: Text, m: MapBundle, ar: Archive, names: map<string, nat>, manifest: Bytes)
    requires Finds(names, ar) && |ar| == 2 + |m.assets| <= MAX_ENTRIES && ar[2..] == AssetEntries(m.assets)
    requires ar[0].name == MANIFEST && t.load(ar[0].data) == Some(ManifestOf(m))
    requires ar[1].name == m.yamlName && t.parse(ar[1].data) == Some(m.building)
    requires Writable(m) && Distinct(m.assets) && Packable(m.assets) && Size(m.assets) <= MAX_BYTES
    requires AllMissing(Refs(m.building), m.assets, []) == m.missing
    ensures MANIFEST in names && ReadListed(t, ar, names) == Ok(m)
  {
    hide Finds, DataOf, PickAll, AllMissing, Stored, Distinct, Packable, Refs, EndsInSlash, Portable, AssetEntries;
    FindsAt(ar, names, 0);
    FindsAt(ar, names, 1);
    assert ar == ar[..2] + ar[2..];
    FindsAssets(ar, names, ar[..2], m.assets);
    PicksAll(ar, names, m.assets);
  }

  lemma CollectedIsPackable(b: Building, yaml: string, read: string -> Option<Bytes>)
    ensures var m := Collect(b, yaml, read); Writable(m) ==> Packable(m.assets)
    ensures AllMissing(Refs(b), Collect(b, yaml, read).assets, []) == Collect(b, yaml, read).missing
  {
    var m := Collect(b, yaml, read);
    TookAllKeeps(Refs(b), yaml, read);
    RefsNonempty(b);
    forall ref | ref in Refs(b) ensures HasPath(m.assets, ref) <==> Readable(read, ref) {
      PackedOrMissing(b, yaml, read, ref);
    }
    MissingAgain(Refs(b), yaml, read, m.assets);
    var c := TookAll(Refs(b), yaml, read);
    hide Safe, Readable, WellPlaced, Refs;
    forall i | 0 <= i < |m.assets| && Writable(m) ensures m.assets[i].path != "" && Safe(m.assets[i].entry) {
      assert AssetOk(c.assets[i], yaml, c, read);
      assert m.assets[i] in m.assets;
    }
  }

  lemma {:induction false} LayerRefsNonempty(layers: seq<string>)
    ensures "" !in LayerRefs(layers)
  {
    if layers != [] {
      LayerRefsNonempty(layers[..|layers| - 1]);
    }
  }

  lemma {:induction false} LevelRefsNonempty(levels: seq<Level>)
    ensures "" !in LevelRefs(levels)
  {
    if levels != [] {
      LevelRefsNonempty(levels[..|levels| - 1]);
      LayerRefsNonempty(levels[|levels| - 1].layers);
    }
  }

  lemma RefsNonempty(b: Building)
    ensures "" !in Refs(b)
  {
    LevelRefsNonempty(b.levels);
  }

  lemma ReadsBack(t: Text, m: MapBundle, pack: Bytes -> nat, manifest: Bytes)
    requires Lawful(t) && t.dump(ManifestOf(m)) == Some(manifest) && t.parse(t.yaml(m.building)) == Some(m.building)
    requires Writable(m) && OwnNames(m) && ShortNames(m) && Packable(m.assets)
    requires AllMissing(Refs(m.building), m.assets, []) == m.missing
    requires WithinCaps(ArchiveOf(t, m, manifest, pack))
    ensures Read(t, ArchiveOf(t, m, manifest, pack)) == Ok(m)
  {
    var ar := ArchiveOf(t, m, manifest, pack);
    ArchiveIsPlain(t, m, manifest, pack);
    ListsPlain(ar);
    TotalOfAssets(ar[..2], m.assets);
    assert ar == ar[..2] + AssetEntries(m.assets);
    assert ar[2..] == AssetEntries(m.assets);
    assert t.load(manifest) == Some(ManifestOf(m));
    var c := ListAll(ar).value;
    hide Finds, Distinct, Packable, AllMissing, ReadListed, PlainArchive, Writable, ListAll, AssetEntries, Refs;
    ReadsListed(t, m, ar, c.names, manifest);
  }

  // ---------------------------------------------------------------- names the reader cuts short

  ghost predicate AllShort(names: map<string, nat>) {
    forall n :: n in names ==> |n| <= MAX_NAME
  }

  lemma {:induction false} ListsShort(ar: Archive)
    requires ListAll(ar).Ok?
    ensures AllShort(ListAll(ar).value.names)
  {
    if ar != [] {
      hide Safe;
      ListsShort(ar[..|ar| - 1]);
    }
  }

  lemma {:induction false} ListsFirst(ar: Archive)
    requires ListAll(ar).Ok? && ar != [] && !ar[0].directory && |ar[0].name| <= MAX_NAME
    ensures ar[0].name in ListAll(ar).value.names
    decreases |ar|
  {
    hide Safe;
    if |ar| > 1 {
      ListsFirst(ar[..|ar| - 1]);
    }
  }

  lemma {:induction false} PicksKnown(ar: Archive, names: map<string, nat>, items: seq<Item>)
    requires PickAll(ar, names, items).Ok?
    ensures forall a :: a in PickAll(ar, names, items).value.assets ==> a.entry in names
  {
    if items != [] {
      hide Safe, DataOf;
      PicksKnown(ar, names, items[..|items| - 1]);
    }
  }

  /** A bundle with a name the reader cuts short is not read back. */
  lemma LongNameLost(t: Text, m: MapBundle, pack: Bytes -> nat, manifest: Bytes)
    requires Lawful(t) && t.dump(ManifestOf(m)) == Some(manifest) && !ShortNames(m)
    ensures Read(t, ArchiveOf(t, m, manifest, pack)) != Ok(m)
  {
    var ar := ArchiveOf(t, m, manifest, pack);
    if Read(t, ar) == Ok(m) {
      ManifestIsPlain();
      ListsFirst(ar);
      ListsShort(ar);
      hide Safe, EndsInSlash, PickAll, AllMissing, Refs;
      var names := ListAll(ar).value.names;
      assert ReadListed(t, ar, names) == Ok(m);
      ReadListedNames(t, ar, names, m);
      assert false;
    }
  }

  lemma ReadListedNames(t: Text, ar: Archive, names: map<string, nat>, m: MapBundle)
    requires ReadListed(t, ar, names) == Ok(m) && AllShort(names)
    ensures ShortNames(m)
  {
    hide Safe, PickAll, AllMissing, Refs;
    var manifest := t.load(DataOf(ar, names, MANIFEST)).value;
    var items := if manifest.assets.Some? then manifest.assets.value else [];
    PicksKnown(ar, names, items);
    assert m.assets == PickAll(ar, names, items).value.assets;
    forall i | 0 <= i < |m.assets| ensures |m.assets[i].entry| <= MAX_NAME {
      assert m.assets[i] in m.assets;
    }
  }

  /** A collected and written bundle is read back whole, with the same yaml name, building, images
      and missing list, exactly when no name in it is longer than the zip reader keeps. */
  lemma BundleReadsBack(t: Text, b: Building, yaml: string, read: string -> Option<Bytes>, pack: Bytes -> nat)
    requires Lawful(t) && t.parse(t.yaml(b)) == Some(b)
    requires yaml != MANIFEST && !(EXTERNAL <= yaml)
    requires var m := Collect(b, yaml, read);
             && Writable(m) && t.dump(ManifestOf(m)).Some?
             && WithinCaps(ArchiveOf(t, m, t.dump(ManifestOf(m)).value, pack))
    ensures var m := Collect(b, yaml, read);
            Read(t, ArchiveOf(t, m, t.dump(ManifestOf(m)).value, pack)) == Ok(m) <==> ShortNames(m)
  {
    var m := Collect(b, yaml, read);
    var manifest := t.dump(ManifestOf(m)).value;
    EntriesApart(b, yaml, read);
    CollectedIsPackable(b, yaml, read);
    hide Collect, Read, Writable, WithinCaps, ArchiveOf, ShortNames;
    if ShortNames(m) {
      ReadsBack(t, m, pack, manifest);
    } else {
      LongNameLost(t, m, pack, manifest);
    }
  }

  // ---------------------------------------------------------------- the same bundle as a plain folder

  /** The bundle without its manifest: what unzipping it, dropping the manifest and zipping it again
      leaves. */
  function FolderOf(t: Text, m: MapBundle, pack: Bytes -> nat): Archive {
    [Entry(m.yamlName, t.yaml(m.building), pack(t.yaml(m.building)), false)] + AssetEntries(m.assets)
  }

  /** Every image is at its own path, and the yaml is the one building yaml at the root. */
  ghost predicate FolderLike(m: MapBundle) {
    && (forall i :: 0 <= i < |m.assets| ==> m.assets[i].entry == m.assets[i].path)
    && RootYaml(m.yamlName) && (forall i :: 0 <= i < |m.assets| ==> !RootYaml(m.assets[i].entry))
  }

  /** After looking up some references: the images found and the missing ones are those collected. */
  ghost predicate SameFound(f: Found, c: Collected) {
    f.assets == c.assets && f.missing == c.missing && f.seen == c.seen && f.size == Size(c.assets)
  }

  /** The archive has each image under its path, and no readable image but these. */
  ghost predicate Backs(ar: Archive, names: map<string, nat>, yaml: string, read: string -> Option<Bytes>, ref: string) {
    && (ref in names <==> Readable(read, ref))
    && (Readable(read, ref) ==> OwnPath(ref, yaml) && DataOf(ar, names, ref) == read(ref).value)
  }

  lemma LooksOne(ar: Archive, names: map<string, nat>, f: Found, c: Collected, yaml: string, read: string -> Option<Bytes>, ref: string, n: nat)
    requires SameFound(f, c) && n + 1 <= MAX_ASSETS && Backs(ar, names, yaml, read, ref)
    requires Size(Took(c, ref, yaml, read).assets) <= MAX_BYTES
    ensures Looked(ar, names, f, ref, n).Ok? && SameFound(Looked(ar, names, f, ref, n).value, Took(c, ref, yaml, read))
  {
    hide OwnPath, Flat, DataOf;
    var now := Took(c, ref, yaml, read);
    if ref !in c.seen && Readable(read, ref) {
      assert now.assets[..|now.assets| - 1] == c.assets;
    }
  }

  lemma {:induction false} SizeGrows(refs: seq<string>, yaml: string, read: string -> Option<Bytes>, k: nat)
    requires k <= |refs|
    ensures Size(TookAll(refs[..k], yaml, read).assets) <= Size(TookAll(refs, yaml, read).assets)
    decreases |refs|
  {
    if k == |refs| {
      assert refs[..k] == refs;
    } else {
      var init := refs[..|refs| - 1];
      assert init[..k] == refs[..k];
      SizeGrows(init, yaml, read, k);
      var c, now := TookAll(init, yaml, read), TookAll(refs, yaml, read);
      hide OwnPath, Flat;
      if now.assets != c.assets {
        assert now.assets[..|now.assets| - 1] == c.assets;
      }
    }
  }

  lemma {:induction false} LooksAll(ar: Archive, names: map<string, nat>, refs: seq<string>, yaml: string, read: string -> Option<Bytes>)
    requires |refs| <= MAX_ASSETS && forall ref :: ref in refs ==> Backs(ar, names, yaml, read, ref)
    requires Size(TookAll(refs, yaml, read).assets) <= MAX_BYTES
    ensures var f := LookAll(ar, names, refs); f.Ok? && SameFound(f.value, TookAll(refs, yaml, read))
    decreases |refs|
  {
    if refs != [] {
      var init, last := refs[..|refs| - 1], refs[|refs| - 1];
      SizeGrows(refs, yaml, read, |refs| - 1);
      hide Backs;
      assert last in refs;
      LooksAll(ar, names, init, yaml, read);
      LooksOne(ar, names, LookAll(ar, names, init).value, TookAll(init, yaml, read), yaml, read, last, |refs| - 1);
    }
  }

  lemma {:induction false} LooksMissing(ar: Archive, names: map<string, nat>, refs: seq<string>)
    requires LookAll(ar, names, refs).Ok?
    ensures forall r :: r in LookAll(ar, names, refs).value.missing ==> r !in names
  {
    if refs != [] {
      hide DataOf;
      LooksMissing(ar, names, refs[..|refs| - 1]);
    }
  }

  lemma FolderIsPlain(t: Text, m: MapBundle, pack: Bytes -> nat)
    requires Writable(m) && ShortNames(m) && OwnNames(m)
    ensures PlainArchive(FolderOf(t, m, pack))
  {
    var ar, whole := FolderOf(t, m, pack), ArchiveOf(t, m, [], pack);
    ArchiveIsPlain(t, m, [], pack);
    assert whole[1..] == ar;
    hide Plain;
    forall i | 0 <= i < |ar| ensures Plain(ar[i]) {
      assert ar[i] == whole[i + 1];
    }
    forall i, j | 0 <= i < j < |ar| ensures ar[i].name != ar[j].name {
      assert ar[i] == whole[i + 1] && ar[j] == whole[j + 1];
    }
  }

  /** The names a folder has: the yaml's and the images'. */
  lemma FolderNames(ar: Archive, names: map<string, nat>, m: MapBundle, n: string)
    requires Finds(names, ar) && |ar| == 1 + |m.assets|
    requires ar[0].name == m.yamlName && ar[1..] == AssetEntries(m.assets)
    requires forall i :: 0 <= i < |m.assets| ==> m.assets[i].entry == m.assets[i].path
    ensures n in names <==> n == m.yamlName || HasPath(m.assets, n)
  {
    assert ar[0].name in names;
    if n in names {
      var i :| 0 <= i < |ar| && ar[i].name == n;
      if i > 0 {
        assert ar[i] == ar[1..][i - 1];
        assert m.assets[i - 1].path == n;
      }
    }
    if HasPath(m.assets, n) {
      var k :| 0 <= k < |m.assets| && m.assets[k].path == n;
      assert ar[k + 1] == ar[1..][k] && ar[k + 1].name in names;
    }
  }

  lemma FolderRoots(ar: Archive, names: map<string, nat>, m: MapBundle)
    requires Finds(names, ar) && |ar| == 1 + |m.assets| && FolderLike(m) && OwnNames(m)
    requires ar[0].name == m.yamlName && ar[1..] == AssetEntries(m.assets)
    ensures Roots(names) == {m.yamlName} && MANIFEST !in names
  {
    hide RootYaml;
    forall n ensures n in Roots(names) <==> n == m.yamlName {
      FolderNames(ar, names, m, n);
      if HasPath(m.assets, n) {
        var k :| 0 <= k < |m.assets| && m.assets[k].path == n;
      }
    }
    FolderNames(ar, names, m, MANIFEST);
  }

  /** Only an image at its own path has its path for its entry. */
  lemma OwnEntry(a: Asset, yaml: string, external: nat)
    requires WellPlaced(a, yaml, external) && a.entry == a.path
    ensures OwnPath(a.path, yaml)
  {
    if !OwnPath(a.path, yaml) {
      var k: nat :| k <= external && a.entry == Flat(a.path, k);
      FlatMoves(a.path, k);
      assert false;
    }
  }

  lemma FolderAsset(ar: Archive, names: map<string, nat>, b: Building, yaml: string, read: string -> Option<Bytes>, k: nat)
    requires var m := Collect(b, yaml, read); k < |m.assets| && Stored(ar, names, m.assets) && FolderLike(m)
    ensures var ref := Collect(b, yaml, read).assets[k].path;
            OwnPath(ref, yaml) && ref in names && Readable(read, ref) && DataOf(ar, names, ref) == read(ref).value
  {
    var c := TookAll(Refs(b), yaml, read);
    TookAllKeeps(Refs(b), yaml, read);
    hide OwnPath, DataOf, Readable, Refs, RootYaml;
    assert AssetOk(c.assets[k], yaml, c, read);
    OwnEntry(c.assets[k], yaml, c.external);
  }

  /** The folder backs every reference just as the reader did, unless one names the yaml itself. */
  lemma FolderBacks(ar: Archive, names: map<string, nat>, b: Building, yaml: string, read: string -> Option<Bytes>, ref: string)
    requires var m := Collect(b, yaml, read);
             && Finds(names, ar) && |ar| == 1 + |m.assets| && FolderLike(m) && yaml !in m.missing
             && ar[0].name == yaml && ar[1..] == AssetEntries(m.assets)
    requires ref in Refs(b)
    ensures Backs(ar, names, yaml, read, ref)
  {
    var m := Collect(b, yaml, read);
    assert ar == ar[..1] + ar[1..];
    FindsAssets(ar, names, ar[..1], m.assets);
    PackedOrMissing(b, yaml, read, ref);
    RefsAre(b, ref);
    FolderNames(ar, names, m, ref);
    if Readable(read, ref) {
      var k :| 0 <= k < |m.assets| && m.assets[k].path == ref;
      FolderAsset(ar, names, b, yaml, read, k);
    }
  }

  lemma OneRoot(t: Text, ar: Archive, names: map<string, nat>, m: MapBundle)
    requires Roots(names) == {m.yamlName} && t.parse(DataOf(ar, names, m.yamlName)) == Some(m.building)
    ensures var f := LookAll(ar, names, Refs(m.building));
            ReadPlain(t, ar, names) == if f.Err? then Err(f.error)
                                       else Ok(MapBundle(m.yamlName, m.building, f.value.assets, f.value.missing))
  {
    hide RootYaml, DataOf, LookAll, Refs;
    assert |Roots(names)| == 1;
    var yaml :| yaml in Roots(names);
    assert m.yamlName in Roots(names);
  }

  /** What the plain reading makes of the folder of a collected bundle. */
  lemma FolderReads(t: Text, ar: Archive, names: map<string, nat>, b: Building, yaml: string, read: string -> Option<Bytes>)
    requires var m := Collect(b, yaml, read);
             && Finds(names, ar) && |ar| == 1 + |m.assets| && FolderLike(m)
             && ar[0].name == yaml && ar[1..] == AssetEntries(m.assets) && Size(m.assets) <= MAX_BYTES
    requires Roots(names) == {yaml} && t.parse(ar[0].data) == Some(b) && |Refs(b)| <= MAX_ASSETS
    ensures ReadPlain(t, ar, names) == Ok(Collect(b, yaml, read)) <==> yaml !in Collect(b, yaml, read).missing
  {
    var m := Collect(b, yaml, read);
    FindsAt(ar, names, 0);
    OneRoot(t, ar, names, m);
    var f := LookAll(ar, names, Refs(b));
    if yaml !in m.missing {
      forall ref | ref in Refs(b) ensures Backs(ar, names, yaml, read, ref) {
        FolderBacks(ar, names, b, yaml, read, ref);
      }
      hide Backs, Finds, FolderLike, DataOf, Took;
      LooksAll(ar, names, Refs(b), yaml, read);
    } else if f.Ok? {
      LooksMissing(ar, names, Refs(b));
      FolderNames(ar, names, m, yaml);
      assert f.value.missing != m.missing;
    }
  }

  /** A bundle laid out like a folder, without its manifest, reads as the same bundle, exactly when
      the yaml does not name itself as an image. */
  lemma FolderReadsBack(t: Text, b: Building, yaml: string, read: string -> Option<Bytes>, pack: Bytes -> nat)
    requires Lawful(t) && t.parse(t.yaml(b)) == Some(b)
    requires yaml != MANIFEST && !(EXTERNAL <= yaml) && |Refs(b)| <= MAX_ASSETS
    requires var m := Collect(b, yaml, read);
             Writable(m) && ShortNames(m) && FolderLike(m) && WithinCaps(FolderOf(t, m, pack))
    ensures var m := Collect(b, yaml, read);
            Read(t, FolderOf(t, m, pack)) == Ok(m) <==> yaml !in m.missing
  {
    var m := Collect(b, yaml, read);
    var ar := FolderOf(t, m, pack);
    EntriesApart(b, yaml, read);
    FolderIsPlain(t, m, pack);
    ListsPlain(ar);
    TotalOfAssets(ar[..1], m.assets);
    assert ar == ar[..1] + AssetEntries(m.assets);
    assert ar[1..] == AssetEntries(m.assets);
    var names := ListAll(ar).value.names;
    FolderRoots(ar, names, m);
    hide Collect, Finds, FolderLike, AssetEntries, ListAll, ReadPlain, Distinct, PlainArchive, Writable, ShortNames, Roots;
    FolderReads(t, ar, names, b, yaml, read);
  }
}
