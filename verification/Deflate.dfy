/** The meaning of a DEFLATE stream (RFC 1951 section 3.2): what a list of blocks
    expands to and which bits stand for it. */
module Deflate {
  import opened Bits
  import opened HuffmanCode

  // RFC 1951 section 3.2.5: codes 257..285 and the distance codes 0..29.
  const LENGTH_BASE: seq<nat> := [
    3, 4, 5, 6, 7, 8, 9, 10, 11, 13, 15, 17, 19, 23, 27, 31, 35, 43, 51, 59, 67, 83, 99, 115, 131, 163, 195, 227, 258]
  const LENGTH_EXTRA: seq<nat> := [
    0, 0, 0, 0, 0, 0, 0, 0, 1, 1, 1, 1, 2, 2, 2, 2, 3, 3, 3, 3, 4, 4, 4, 4, 5, 5, 5, 5, 0]
  const DIST_BASE: seq<nat> := [
    1, 2, 3, 4, 5, 7, 9, 13, 17, 25, 33, 49, 65, 97, 129, 193, 257, 385, 513, 769, 1025, 1537, 2049, 3073, 4097,
    6145, 8193, 12289, 16385, 24577]
  const DIST_EXTRA: seq<nat> := [
    0, 0, 0, 0, 1, 1, 2, 2, 3, 3, 4, 4, 5, 5, 6, 6, 7, 7, 8, 8, 9, 9, 10, 10, 11, 11, 12, 12, 13, 13]

  const LENGTH_SYMS := 29
  const DIST_SYMS := 30
  const END_OF_BLOCK := 256
  const FIRST_LENGTH := 257

  /** A literal byte, or a copy of earlier output given by its two codes and their extra bits. */
  datatype Item =
    | Literal(b: byte)
    | Copy(lsym: nat, lextra: nat, dsym: nat, dextra: nat)

  predicate ItemOk(it: Item) {
    it.Copy? ==>
      && it.lsym < LENGTH_SYMS && it.lextra < Pow2(LENGTH_EXTRA[it.lsym])
      && it.dsym < DIST_SYMS && it.dextra < Pow2(DIST_EXTRA[it.dsym])
  }

  function CopyLength(it: Item): (n: nat)
    requires it.Copy? && ItemOk(it)
  {
    LENGTH_BASE[it.lsym] + it.lextra
  }

  function CopyDistance(it: Item): (d: nat)
    requires it.Copy? && ItemOk(it)
  {
    DIST_BASE[it.dsym] + it.dextra
  }

  /** Append `len` bytes, each one the byte `dist` places before it; the source may overlap the result. */
  function CopyBack(out: seq<byte>, len: nat, dist: nat): (r: seq<byte>)
    requires 1 <= dist <= |out|
    ensures |r| == |out| + len && out <= r
    decreases len
  {
    if len == 0 then out else CopyBack(out + [out[|out| - dist]], len - 1, dist)
  }

  predicate Applicable(it: Item, out: seq<byte>) {
    ItemOk(it) && (it.Copy? ==> 1 <= CopyDistance(it) <= |out|)
  }

  function Apply(it: Item, out: seq<byte>): (r: seq<byte>)
    requires Applicable(it, out)
    ensures |out| <= |r|
  {
    if it.Literal? then out + [it.b] else CopyBack(out, CopyLength(it), CopyDistance(it))
  }

  predicate Playable(items: seq<Item>, out: seq<byte>) {
    items == [] || (Applicable(items[0], out) && Playable(items[1..], Apply(items[0], out)))
  }

  /** The output after all items. */
  function Play(items: seq<Item>, out: seq<byte>): (r: seq<byte>)
    requires Playable(items, out)
    ensures |out| <= |r|
  {
    if items == [] then out else Play(items[1..], Apply(items[0], out))
  }

  function Played(items: seq<Item>, out: seq<byte>): seq<byte> {
    if Playable(items, out) then Play(items, out) else out
  }

  /** The literal/length symbol an item starts with. */
  function HeadSym(it: Item): nat {
    if it.Literal? then it.b else FIRST_LENGTH + it.lsym
  }

  predicate Spells(ll: Lengths, dl: Lengths, it: Item) {
    ItemOk(it)
    && Used(ll, HeadSym(it)) && (it.Copy? ==> Used(dl, it.dsym))
  }

  /** What a copy adds after its length code. */
  function TailBits(dl: Lengths, it: Item): seq<bool>
    requires ItemOk(it) && (it.Copy? ==> Used(dl, it.dsym))
  {
    if it.Literal? then []
    else BitsOf(it.lextra, LENGTH_EXTRA[it.lsym]) + (CodeBits(dl, it.dsym) + BitsOf(it.dextra, DIST_EXTRA[it.dsym]))
  }

  function ItemBits(ll: Lengths, dl: Lengths, it: Item): seq<bool>
    requires Spells(ll, dl, it)
  {
    CodeBits(ll, HeadSym(it)) + TailBits(dl, it)
  }

  predicate SpellsAll(ll: Lengths, dl: Lengths, items: seq<Item>) {
    forall k :: 0 <= k < |items| ==> Spells(ll, dl, items[k])
  }

  function ItemsBits(ll: Lengths, dl: Lengths, items: seq<Item>): seq<bool>
    requires SpellsAll(ll, dl, items)
  {
    if items == [] then [] else ItemBits(ll, dl, items[0]) + ItemsBits(ll, dl, items[1..])
  }

  lemma {:induction false} PlayAppend(items: seq<Item>, it: Item, out: seq<byte>)
    requires Playable(items, out) && Applicable(it, Play(items, out))
    ensures Playable(items + [it], out) && Play(items + [it], out) == Apply(it, Play(items, out))
  {
    var all := items + [it];
    if items == [] {
      assert all[0] == it && all[1..] == [];
    } else {
      assert all[0] == items[0] && all[1..] == items[1..] + [it];
      PlayAppend(items[1..], it, Apply(items[0], out));
    }
  }

  lemma {:induction false} BitsAppend(ll: Lengths, dl: Lengths, items: seq<Item>, it: Item)
    requires SpellsAll(ll, dl, items) && Spells(ll, dl, it)
    ensures SpellsAll(ll, dl, items + [it])
    ensures ItemsBits(ll, dl, items + [it]) == ItemsBits(ll, dl, items) + ItemBits(ll, dl, it)
  {
    var all := items + [it];
    if items == [] {
      assert all[0] == it && all[1..] == [];
    } else {
      assert all[0] == items[0] && all[1..] == items[1..] + [it];
      BitsAppend(ll, dl, items[1..], it);
      Assoc(ItemBits(ll, dl, items[0]), ItemsBits(ll, dl, items[1..]), ItemBits(ll, dl, it));
    }
  }

  /** The fixed code of RFC 1951 section 3.2.6. */
  function FixedLengths(): Lengths {
    seq(288, i => if i <= 143 then 8 else if i <= 255 then 9 else if i <= 279 then 7 else 8)
  }

  function FixedDistances(): Lengths {
    seq(32, _ => 5)
  }

  // ---------------------------------------------------------------- dynamic codes (section 3.2.7)

  /** One code of the compressed code lengths. */
  datatype LengthItem =
    | Given(len: nat)
    | Repeat(extra: nat)
    | ZerosShort(extra: nat)
    | ZerosLong(extra: nat)

  function LengthSym(it: LengthItem): nat {
    if it.Given? then it.len else if it.Repeat? then 16 else if it.ZerosShort? then 17 else 18
  }

  function LengthWidth(it: LengthItem): nat {
    if it.Given? then 0 else if it.Repeat? then 2 else if it.ZerosShort? then 3 else 7
  }

  function LengthExtra(it: LengthItem): nat {
    if it.Given? then 0 else it.extra
  }

  function Fill(v: nat, n: nat): (s: seq<nat>)
    ensures |s| == n && forall i :: 0 <= i < n ==> s[i] == v
  {
    if n == 0 then [] else Fill(v, n - 1) + [v]
  }

  /** Whether `it` can stand after the lengths `sofar`. */
  predicate LengthFits(cl: Lengths, it: LengthItem, sofar: seq<nat>) {
    && (it.Given? ==> it.len < 16)
    && LengthExtra(it) < Pow2(LengthWidth(it))
    && Used(cl, LengthSym(it))
    && (it.Repeat? ==> sofar != [])
  }

  function MoreLengths(it: LengthItem, sofar: seq<nat>): seq<nat>
    requires it.Repeat? ==> sofar != []
  {
    if it.Given? then sofar + [it.len]
    else if it.Repeat? then sofar + Fill(sofar[|sofar| - 1], 3 + it.extra)
    else if it.ZerosShort? then sofar + Fill(0, 3 + it.extra)
    else sofar + Fill(0, 11 + it.extra)
  }

  predicate LengthsFit(cl: Lengths, items: seq<LengthItem>, sofar: seq<nat>) {
    items == [] || (LengthFits(cl, items[0], sofar) && LengthsFit(cl, items[1..], MoreLengths(items[0], sofar)))
  }

  function AllLengths(cl: Lengths, items: seq<LengthItem>, sofar: seq<nat>): (r: seq<nat>)
    requires LengthsFit(cl, items, sofar)
    ensures |sofar| <= |r|
  {
    if items == [] then sofar else AllLengths(cl, items[1..], MoreLengths(items[0], sofar))
  }

  function LengthItemBits(cl: Lengths, it: LengthItem, sofar: seq<nat>): seq<bool>
    requires LengthFits(cl, it, sofar)
  {
    CodeBits(cl, LengthSym(it)) + BitsOf(LengthExtra(it), LengthWidth(it))
  }

  function LengthItemsBits(cl: Lengths, items: seq<LengthItem>, sofar: seq<nat>): seq<bool>
    requires LengthsFit(cl, items, sofar)
  {
    if items == [] then []
    else LengthItemBits(cl, items[0], sofar) + LengthItemsBits(cl, items[1..], MoreLengths(items[0], sofar))
  }

  const LENGTH_ORDER: seq<nat> := [16, 17, 18, 0, 8, 7, 9, 6, 10, 5, 11, 4, 12, 3, 13, 2, 14, 1, 15]

  /** The first lengths belong to the symbols in LENGTH_ORDER, the missing ones are zero. */
  function PlaceLengths(given: seq<byte>): (l: seq<nat>)
    requires |given| <= 19
    ensures |l| == 19
  {
    if given == [] then Fill(0, 19)
    else PlaceLengths(given[..|given| - 1])[LENGTH_ORDER[|given| - 1] := given[|given| - 1]]
  }

  function GivenAt(given: seq<byte>, i: nat): nat {
    if i < |given| then given[i] else 0
  }

  /** Whose length each field is, symbol by symbol (section 3.2.7): the three repeat codes, then 0, then
      8 upwards and 7 downwards in turn; a length that is not given is 0. */
  ghost predicate Placed(given: seq<byte>, sizes: seq<nat>) {
    && |sizes| == 19
    && (forall k :: 0 <= k < 3 ==> sizes[16 + k] == GivenAt(given, k))
    && sizes[0] == GivenAt(given, 3)
    && (forall k :: 0 <= k < 8 ==> sizes[8 + k] == GivenAt(given, 4 + 2 * k))
    && (forall k :: 1 <= k <= 7 ==> sizes[8 - k] == GivenAt(given, 3 + 2 * k))
  }

  lemma OrderInjective(i: nat, j: nat)
    requires i < j < 19
    ensures LENGTH_ORDER[i] != LENGTH_ORDER[j] && LENGTH_ORDER[i] < 19
  {
  }

  lemma {:induction false} PlacedAt(given: seq<byte>, i: nat)
    requires |given| <= 19 && i < 19
    ensures LENGTH_ORDER[i] < 19 && PlaceLengths(given)[LENGTH_ORDER[i]] == GivenAt(given, i)
    decreases |given|
  {
    hide Fill;
    if i < 18 { OrderInjective(i, 18); }
    if given != [] {
      var n := |given| - 1;
      PlacedAt(given[..n], i);
      if i < n { OrderInjective(i, n); }
      if n < i { OrderInjective(n, i); }
    }
  }

  lemma PlacedUp(given: seq<byte>, k: nat)
    requires |given| <= 19 && k < 8
    ensures PlaceLengths(given)[8 + k] == GivenAt(given, 4 + 2 * k)
  {
    hide PlaceLengths, GivenAt;
    PlacedAt(given, 4 + 2 * k);
  }

  lemma PlacedDown(given: seq<byte>, k: nat)
    requires |given| <= 19 && 1 <= k <= 7
    ensures PlaceLengths(given)[8 - k] == GivenAt(given, 3 + 2 * k)
  {
    hide PlaceLengths, GivenAt;
    PlacedAt(given, 3 + 2 * k);
  }

  lemma PlacedHead(given: seq<byte>, k: nat)
    requires |given| <= 19 && k < 4
    ensures PlaceLengths(given)[if k < 3 then 16 + k else 0] == GivenAt(given, k)
  {
    hide PlaceLengths, GivenAt;
    PlacedAt(given, k);
  }

  lemma LengthsPlaced(given: seq<byte>)
    requires |given| <= 19
    ensures Placed(given, PlaceLengths(given))
  {
    hide PlaceLengths, GivenAt;
    forall k | 0 <= k < 3 ensures PlaceLengths(given)[16 + k] == GivenAt(given, k) {
      PlacedHead(given, k);
    }
    PlacedHead(given, 3);
    forall k | 0 <= k < 8 ensures PlaceLengths(given)[8 + k] == GivenAt(given, 4 + 2 * k) {
      PlacedUp(given, k);
    }
    forall k | 1 <= k <= 7 ensures PlaceLengths(given)[8 - k] == GivenAt(given, 3 + 2 * k) {
      PlacedDown(given, k);
    }
  }

  // ---------------------------------------------------------------- the tables

  /** The lengths of section 3.2.5: eight codes without extra bits, then four for every number of
      them, each going on where the one before ends; the last code is 258 alone. */
  lemma LengthTable()
    ensures |LENGTH_BASE| == |LENGTH_EXTRA| == 29 && LENGTH_BASE[0] == 3
    ensures forall j :: 0 <= j < 28 ==> LENGTH_EXTRA[j] == if j < 8 then 0 else j / 4 - 1
    ensures forall j :: 0 <= j < 27 ==> LENGTH_BASE[j + 1] == LENGTH_BASE[j] + Pow2(LENGTH_EXTRA[j])
    ensures LENGTH_BASE[28] == 258 == LENGTH_BASE[27] + Pow2(LENGTH_EXTRA[27]) - 1 && LENGTH_EXTRA[28] == 0
  {
    assert Pow2(5) == 32 && Pow2(4) == 16 && Pow2(3) == 8 && Pow2(2) == 4 && Pow2(1) == 2 && Pow2(0) == 1;
  }

  /** The distances: four codes without extra bits, then two for every number of them. */
  lemma DistanceTable()
    ensures |DIST_BASE| == |DIST_EXTRA| == 30 && DIST_BASE[0] == 1
    ensures forall j :: 0 <= j < 30 ==> DIST_EXTRA[j] == if j < 4 then 0 else j / 2 - 1
    ensures forall j :: 0 <= j < 29 ==> DIST_BASE[j + 1] == DIST_BASE[j] + Pow2(DIST_EXTRA[j])
    ensures DIST_BASE[29] + Pow2(DIST_EXTRA[29]) == 32769
  {
    hide Pow2;
    DistanceExtra();
    forall j | 0 <= j < 29 ensures DIST_BASE[j + 1] == DIST_BASE[j] + Pow2(DIST_EXTRA[j]) {
      if j < 14 { DistanceLow(j); } else { DistanceHigh(j); }
    }
    DistanceHigh(29);
  }

  lemma DistanceExtra()
    ensures forall j :: 0 <= j < 30 ==> DIST_EXTRA[j] == if j < 4 then 0 else j / 2 - 1
  {
  }

  lemma DistanceLow(j: nat)
    requires j < 14
    ensures DIST_BASE[j + 1] == DIST_BASE[j] + Pow2(DIST_EXTRA[j])
  {
    assert Pow2(5) == 32 && Pow2(4) == 16 && Pow2(3) == 8 && Pow2(2) == 4 && Pow2(1) == 2 && Pow2(0) == 1;
  }

  lemma DistanceHigh(j: nat)
    requires 14 <= j < 30
    ensures DIST_BASE[j] + Pow2(DIST_EXTRA[j]) == if j == 29 then 32769 else DIST_BASE[j + 1]
  {
    assert Pow2(13) == 8192 && Pow2(12) == 4096 && Pow2(11) == 2048 && Pow2(10) == 1024;
    assert Pow2(9) == 512 && Pow2(8) == 256 && Pow2(7) == 128 && Pow2(6) == 64;
  }

  /** The run codes of the lengths (section 3.2.7): 16 repeats the one before 3 to 6 times, 17 and 18 make
      3 to 10 and 11 to 138 zeros; every number of these is made by exactly one of them. */
  lemma RunCounts(it: LengthItem, sofar: seq<nat>)
    requires !it.Given? && it.extra < Pow2(LengthWidth(it)) && (it.Repeat? ==> sofar != [])
    ensures var now := MoreLengths(it, sofar);
            var n := |now| - |sofar|;
            && sofar <= now
            && (LengthSym(it) == 16 <==> it.Repeat?) && (LengthSym(it) == 17 <==> it.ZerosShort?) && (LengthSym(it) == 18 <==> it.ZerosLong?)
            && (it.Repeat? ==> 3 <= n <= 6 && forall i :: |sofar| <= i < |now| ==> now[i] == sofar[|sofar| - 1])
            && (it.ZerosShort? ==> 3 <= n <= 10) && (it.ZerosLong? ==> 11 <= n <= 138)
            && (!it.Repeat? ==> forall i :: |sofar| <= i < |now| ==> now[i] == 0)
  {
    assert Pow2(2) == 4 && Pow2(3) == 8 && Pow2(7) == 128;
  }

  datatype Codes = Codes(hlit: nat, hdist: nat, given: seq<byte>, items: seq<LengthItem>)

  predicate SmallFields(given: seq<byte>) {
    forall i :: 0 <= i < |given| ==> given[i] < 8
  }

  predicate IsLengths(l: seq<nat>) {
    forall i :: 0 <= i < |l| ==> l[i] <= 15
  }

  predicate CodesOk(c: Codes) {
    && 257 <= c.hlit <= 288 && 1 <= c.hdist <= 32
    && 4 <= |c.given| <= 19 && SmallFields(c.given)
    && IsLengths(PlaceLengths(c.given)) && Acceptable(PlaceLengths(c.given))
    && LengthsFit(PlaceLengths(c.given), c.items, [])
    && CodesSplit(AllLengths(PlaceLengths(c.given), c.items, []), c.hlit, c.hdist)
  }

  predicate CodesSplit(all: seq<nat>, hlit: nat, hdist: nat) {
    && |all| == hlit + hdist
    && IsLengths(all[..hlit]) && Acceptable(all[..hlit])
    && IsLengths(all[hlit..]) && Acceptable(all[hlit..])
  }

  function LitLengths(c: Codes): Lengths {
    if CodesOk(c) then AllLengths(PlaceLengths(c.given), c.items, [])[..c.hlit] else []
  }

  function DistLengths(c: Codes): Lengths {
    if CodesOk(c) then AllLengths(PlaceLengths(c.given), c.items, [])[c.hlit..] else []
  }

  /** HLIT, HDIST and HCLEN. */
  function CountsBits(hlit: nat, hdist: nat, hclen: nat): seq<bool>
    requires hlit >= 257 && hdist >= 1 && hclen >= 4
  {
    BitsOf(hlit - 257, 5) + (BitsOf(hdist - 1, 5) + BitsOf(hclen - 4, 4))
  }

  /** The counts are the low fourteen bits of one number, HLIT lowest. */
  lemma CountsPacked(hlit: nat, hdist: nat, hclen: nat)
    requires 257 <= hlit < 289 && 1 <= hdist < 33 && 4 <= hclen < 20
    ensures CountsBits(hlit, hdist, hclen) == BitsOf((hlit - 257) + 32 * (hdist - 1) + 1024 * (hclen - 4), 14)
  {
    hide BitsOf, Shl, Pow2;
    var x, y, w := hlit - 257, hdist - 1, hclen - 4;
    ShlFive(w);
    ShlFive(y + 32 * w);
    BitsJoin(y, w, 5, 4);
    BitsJoin(x, y + 32 * w, 5, 9);
    assert x + 32 * (y + 32 * w) == x + 32 * y + 1024 * w;
  }

  lemma ShlFive(v: nat)
    ensures Shl(v, 5) == 32 * v && Pow2(5) == 32
  {
    assert Shl(v, 1) == 2 * v;
    assert Shl(v, 3) == 8 * v;
  }

  function CodesBits(c: Codes): seq<bool> {
    if !CodesOk(c) then []
    else
      CountsBits(c.hlit, c.hdist, |c.given|)
      + (FieldBits(c.given, 3) + LengthItemsBits(PlaceLengths(c.given), c.items, []))
  }

  // ---------------------------------------------------------------- blocks

  datatype Block =
    | Stored(pad: seq<bool>, data: seq<byte>)
    | Fixed(items: seq<Item>)
    | Dynamic(codes: Codes, items: seq<Item>)

  /** LEN and its complement, low byte first. */
  function StoredHeader(len: nat): (h: seq<byte>)
    requires len < 0x10000
    ensures |h| == 4
  {
    var nlen := 0xffff - len;
    [len % 256, len / 256, nlen % 256, nlen / 256]
  }

  /** Bits to skip so that a stored block starts on a byte boundary. */
  function PadTo(offset: nat): (p: nat)
    ensures p < 8 && (offset + p) % 8 == 0
  {
    (8 - offset % 8) % 8
  }

  predicate CodedOk(ll: Lengths, dl: Lengths, items: seq<Item>, out: seq<byte>) {
    Used(ll, END_OF_BLOCK) && SpellsAll(ll, dl, items) && Playable(items, out)
  }

  predicate BlockOk(b: Block, out: seq<byte>, offset: nat) {
    if b.Stored? then |b.data| < 0x10000 && |b.pad| == PadTo(offset + 3)
    else if b.Fixed? then CodedOk(FixedLengths(), FixedDistances(), b.items, out)
    else CodesOk(b.codes) && CodedOk(LitLengths(b.codes), DistLengths(b.codes), b.items, out)
  }

  /** The output after a block; an ill-formed block adds nothing. */
  function Expand(b: Block, out: seq<byte>, offset: nat): (r: seq<byte>)
    ensures |out| <= |r|
  {
    if !BlockOk(b, out, offset) then out
    else if b.Stored? then out + b.data else Play(b.items, out)
  }

  function CodedBits(ll: Lengths, dl: Lengths, items: seq<Item>): seq<bool>
    requires Used(ll, END_OF_BLOCK) && SpellsAll(ll, dl, items)
  {
    ItemsBits(ll, dl, items) + CodeBits(ll, END_OF_BLOCK)
  }

  /** What follows the three header bits. */
  function BodyBits(b: Block, out: seq<byte>, offset: nat): seq<bool>
    requires BlockOk(b, out, offset)
  {
    if b.Stored? then b.pad + (StreamBits(StoredHeader(|b.data|)) + StreamBits(b.data))
    else if b.Fixed? then CodedBits(FixedLengths(), FixedDistances(), b.items)
    else CodesBits(b.codes) + CodedBits(LitLengths(b.codes), DistLengths(b.codes), b.items)
  }

  function BlockType(b: Block): (t: nat)
    ensures t < 3
  {
    if b.Stored? then 0 else if b.Fixed? then 1 else 2
  }

  function BlockBits(b: Block, final: bool, out: seq<byte>, offset: nat): seq<bool> {
    if !BlockOk(b, out, offset) then []
    else [final] + (BitsOf(BlockType(b), 2) + BodyBits(b, out, offset))
  }

  // ---------------------------------------------------------------- streams

  /** A block in its place: the output before it, its bit offset and its bits. */
  datatype Piece = Piece(block: Block, out: seq<byte>, offset: nat, bits: seq<bool>)

  predicate PieceOk(p: Piece, final: bool) {
    BlockOk(p.block, p.out, p.offset) && p.bits == BlockBits(p.block, final, p.out, p.offset)
  }

  function OutputOf(p: Piece): (r: seq<byte>)
    ensures |p.out| <= |r|
  {
    Expand(p.block, p.out, p.offset)
  }

  predicate PieceAt(pieces: seq<Piece>, i: nat)
    requires i < |pieces|
  {
    PieceOk(pieces[i], i == |pieces| - 1)
  }

  /** Piece `i + 1` stands where piece `i` ends. */
  predicate FollowsAt(pieces: seq<Piece>, i: nat)
    requires i + 1 < |pieces|
  {
    pieces[i + 1].out == OutputOf(pieces[i]) && pieces[i + 1].offset == pieces[i].offset + |pieces[i].bits|
  }

  /** The pieces make up a whole stream that stands for `data`: only the last one carries
      the final bit. */
  predicate IsStream(pieces: seq<Piece>, data: seq<byte>) {
    && pieces != [] && pieces[0].out == [] && pieces[0].offset == 0
    && (forall i {:trigger PieceAt(pieces, i)} :: 0 <= i < |pieces| ==> PieceAt(pieces, i))
    && (forall i {:trigger FollowsAt(pieces, i)} :: 0 <= i < |pieces| - 1 ==> FollowsAt(pieces, i))
    && data == OutputOf(pieces[|pieces| - 1])
  }

  /** The bits from piece `i` on. */
  function BitsFrom(pieces: seq<Piece>, i: nat): seq<bool>
    requires i <= |pieces|
    decreases |pieces| - i
  {
    if i == |pieces| then [] else pieces[i].bits + BitsFrom(pieces, i + 1)
  }

  lemma {:induction false} OutputGrows(pieces: seq<Piece>, data: seq<byte>, i: nat)
    requires IsStream(pieces, data) && i < |pieces|
    ensures |OutputOf(pieces[i])| <= |data|
    decreases |pieces| - i
  {
    if i < |pieces| - 1 {
      OutputGrows(pieces, data, i + 1);
      assert FollowsAt(pieces, i);
    }
  }
}
