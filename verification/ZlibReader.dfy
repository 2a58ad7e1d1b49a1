/** `stbi__parse_zlib` and its header check: the loop over the blocks. */
module ZlibReader {
  import opened Bits
  import opened HuffmanCode
  import opened HuffmanTable
  import opened ZlibBits
  import opened Deflate
  import opened FixedCode
  import opened Inflate
  import opened StoredBlock
  import opened DynamicCodes

  /** The stream spells block `b` at bit `offset`, then `more` up to a byte boundary. */
  ghost predicate BlockSpelled(b: Block, final: bool, out: seq<byte>, offset: nat, rest: seq<bool>, more: seq<bool>) {
    && BlockOk(b, out, offset) && |more| >= 32 && (offset + |rest|) % 8 == 0
    && rest == BlockBits(b, final, out, offset) + more
  }

  lemma OneBit(final: bool)
    ensures BitsOf(if final then 1 else 0, 1) == [final]
  {
    assert BitsOf((if final then 1 else 0) / 2, 0) == [];
  }

  /** The three header bits of a block. */
  method ReadBlockHeader(z: ZBuf, ghost final: bool, ghost kind: nat, ghost more: seq<bool>) returns (last: bool, t: nat)
    requires z.Valid()
    modifies z`pos, z`numBits, z`codeBuffer
    ensures z.Valid() && t < 4
    ensures z.Ahead() < old(z.Ahead()) || (old(z.Ahead()) == 0 == z.Ahead() && t == 0)
    ensures kind < 4 && old(z.Rest()) == [final] + (BitsOf(kind, 2) + more)
            && |more| + (if old(z.numBits) == 0 then 3 else 0) >= 32 ==>
              last == final && t == kind && z.Rest() == more
    ensures Took(old(z.Rest()), [last] + BitsOf(t, 2), z.Rest())
  {
    hide Took, ZBuf.Rest, ZBuf.Ahead, BitsOf;
    ghost var r0 := z.Rest();
    assert Pow2(1) == 2 && Pow2(2) == 4;
    OneBit(final);
    var f := ReceiveField(z, 1, if final then 1 else 0, BitsOf(kind, 2) + more);
    ghost var r1 := z.Rest();
    t := ReceiveField(z, 2, kind, more);
    last := f == 1;
    OneBit(last);
    TookThen(r0, BitsOf(f, 1), r1, BitsOf(t, 2), z.Rest());
  }

  /** The stream `s` starts with the header of a stored block that no stored block follows. */
  predicate BadStored(s: seq<byte>) {
    |s| >= 4 && (s[0] / 2) % 4 == 0 && !StoredPrefix(s[1..])
  }

  /** A byte with type bits zero, split into header, padding and the bytes after it. */
  lemma BadStoredBits(s: seq<byte>)
    requires BadStored(s)
    ensures StreamBits(s) == [s[0] % 2 == 1] + (BitsOf(0, 2) + (BitsOf(s[0] / 8, 5) + StreamBits(s[1..])))
    ensures |BitsOf(s[0] / 8, 5) + StreamBits(s[1..])| == 8 * |s| - 3
  {
    ByteAsHeader(s[0]);
    StreamLength(s[1..]);
    assert s[0..] == s;
    StreamNext(s, 0);
    Assoc([s[0] % 2 == 1], BitsOf(0, 2) + BitsOf(s[0] / 8, 5), StreamBits(s[1..]));
    Assoc(BitsOf(0, 2), BitsOf(s[0] / 8, 5), StreamBits(s[1..]));
  }

  lemma {:induction false} SameStream(s: seq<byte>, t: seq<byte>)
    requires StreamBits(s) == StreamBits(t)
    ensures s == t
  {
    StreamLength(s);
    StreamLength(t);
    assert StreamBits(t) + [] == StreamBits(t);
    StreamCancel(s, t, []);
  }

  /** After its three header bits, the stream stands before the padding of a bad stored block. */
  ghost predicate RefusedBody(z: ZBuf, s: seq<byte>)
    requires z.Valid()
    reads z
  {
    BadStored(s) && z.Rest() == BitsOf(s[0] / 8, 5) + StreamBits(s[1..])
  }

  lemma RefusedBytes(z: ZBuf, s: seq<byte>)
    requires z.Valid() && RefusedBody(z, s)
    ensures z.numBits % 8 == 5 && |z.Rest()| >= 5 && z.Rest()[5..] == StreamBits(s[1..])
    ensures |s| >= 4 && !StoredPrefix(s[1..])
  {
    RestLength(z);
    StreamLength(s[1..]);
    DropFront(BitsOf(s[0] / 8, 5), StreamBits(s[1..]));
  }

  /** The body of a coded block, once its two tables stand. */
  ghost predicate CodedSpelled(ll: Lengths, dl: Lengths, items: seq<Item>, out: seq<byte>, rest: seq<bool>, more: seq<bool>) {
    CodedOk(ll, dl, items, out) && |more| >= 32 && rest == CodedBits(ll, dl, items) + more
  }

  lemma CodedIsHuffmanBlock(ll: Lengths, dl: Lengths, items: seq<Item>, out: seq<byte>, rest: seq<bool>, more: seq<bool>)
    requires CodedSpelled(ll, dl, items, out, rest, more)
    ensures HuffmanBlock(items, rest, out, ll, dl, more)
  {
    Assoc(ItemsBits(ll, dl, items), CodeBits(ll, END_OF_BLOCK), more);
  }

  method ReadCoded(z: ZBuf, lt: ZHuffman, dt: ZHuffman, ghost ll: Lengths, ghost dl: Lengths,
                   ghost expected: bool, ghost items: seq<Item>, ghost more: seq<bool>)
    returns (ok: bool, ghost got: seq<Item>)
    requires z.Valid() && lt.Describes(ll) && dt.Describes(dl)
    requires expected ==> CodedSpelled(ll, dl, items, z.zout, z.Rest(), more)
    requires expected ==> !z.hitEofOnce && |Play(items, z.zout)| <= z.Capacity()
    modifies z
    ensures z.Capacity() == old(z.Capacity())
    ensures z.Valid() && z.Ahead() <= old(z.Ahead())
    ensures expected ==> ok && z.Rest() == more && z.zout == Play(items, old(z.zout)) && !z.hitEofOnce
    ensures ok ==> TookCoded(ll, dl, got, old(z.zout), old(z.Rest()), z.Rest()) && z.zout == Play(got, old(z.zout))
  {
    hide HuffmanBlock, CodedSpelled, TookCoded, Play, ZHuffman.Describes, ZBuf.Rest, ZBuf.Ahead, Room;
    if expected { CodedIsHuffmanBlock(ll, dl, items, z.zout, z.Rest(), more); }
    ok, got := ParseHuffmanBlock(z, lt, dt, ll, dl, items, more);
  }

  method ReadFixed(z: ZBuf, lt: ZHuffman, dt: ZHuffman, ghost expected: bool, ghost items: seq<Item>, ghost more: seq<bool>)
    returns (ok: bool, ghost got: seq<Item>)
    requires z.Valid() && lt.Shape() && dt.Shape() && lt.Tables() !! dt.Tables()
    requires expected ==> CodedSpelled(FixedLengths(), FixedDistances(), items, z.zout, z.Rest(), more)
    requires expected ==> !z.hitEofOnce && |Play(items, z.zout)| <= z.Capacity()
    modifies z, lt.Tables(), dt.Tables()
    ensures z.Capacity() == old(z.Capacity())
    ensures z.Valid() && z.Ahead() <= old(z.Ahead())
    ensures expected ==> ok && z.Rest() == more && z.zout == Play(items, old(z.zout)) && !z.hitEofOnce
    ensures ok ==> TookCoded(FixedLengths(), FixedDistances(), got, old(z.zout), old(z.Rest()), z.Rest())
                   && z.zout == Play(got, old(z.zout))
  {
    hide CodedSpelled, TookCoded, Play, ZHuffman.Describes, ZBuf.Rest, ZBuf.Ahead, Room, Acceptable;
    FixedAcceptable();
    DistAcceptable();
    got := [];
    ok := BuildBoth(lt, dt, FixedLengths(), FixedDistances());
    if ok { ok, got := ReadCoded(z, lt, dt, FixedLengths(), FixedDistances(), expected, items, more); }
  }

  method ReadDynamic(z: ZBuf, lt: ZHuffman, dt: ZHuffman, ghost expected: bool, ghost c: Codes,
                     ghost items: seq<Item>, ghost after: seq<bool>, ghost more: seq<bool>)
    returns (ok: bool, ghost codes: Codes, ghost got: seq<Item>)
    requires z.Valid() && lt.Shape() && dt.Shape() && lt.Tables() !! dt.Tables()
    requires expected ==> CodesSpelled(c, z.Rest(), after)
    requires expected ==> CodedSpelled(LitLengths(c), DistLengths(c), items, z.zout, after, more)
    requires expected ==> !z.hitEofOnce && |Play(items, z.zout)| <= z.Capacity()
    modifies z, lt.Tables(), dt.Tables()
    ensures z.Capacity() == old(z.Capacity())
    ensures z.Valid() && z.Ahead() <= old(z.Ahead())
    ensures expected ==> ok && z.Rest() == more && z.zout == Play(items, old(z.zout)) && !z.hitEofOnce
    ensures ok ==> TookDynamic(codes, got, old(z.zout), old(z.Rest()), z.Rest()) && z.zout == Play(got, old(z.zout))
  {
    hide CodesSpelled, CodedSpelled, TookCodes, TookCoded, TookDynamic, LitLengths, DistLengths, Play, ZHuffman.Describes,
         ZBuf.Rest, ZBuf.Ahead, Room;
    ghost var ll, dl, was, out := [], [], z.Rest(), z.zout;
    got := [];
    ok, ll, dl, codes := ReadCodes(z, lt, dt, c, after);
    ghost var then1 := z.Rest();
    if ok {
      ok, got := ReadCoded(z, lt, dt, ll, dl, expected, items, more);
      if ok { DynamicTaken(codes, ll, dl, got, out, was, then1, z.Rest()); }
    }
  }

  /** A block with its own code has been read. */
  ghost predicate TookDynamic(codes: Codes, got: seq<Item>, out: seq<byte>, was: seq<bool>, now: seq<bool>) {
    && CodesOk(codes) && CodedOk(LitLengths(codes), DistLengths(codes), got, out)
    && Took(was, CodesBits(codes) + CodedBits(LitLengths(codes), DistLengths(codes), got), now)
  }

  lemma DynamicTaken(codes: Codes, ll: Lengths, dl: Lengths, got: seq<Item>, out: seq<byte>, was: seq<bool>,
                     then1: seq<bool>, now: seq<bool>)
    requires TookCodes(codes, ll, dl, was, then1) && TookCoded(ll, dl, got, out, then1, now)
    ensures TookDynamic(codes, got, out, was, now)
  {
    hide Took, CodesOk, LitLengths, DistLengths, CodesBits;
    TookThen(was, CodesBits(codes), then1, CodedBits(ll, dl, got), now);
  }

  lemma StoredMeans(data: seq<byte>, bytes: seq<byte>, more: seq<bool>)
    requires |data| < 0x10000
    requires StreamBits(bytes) == (StreamBits(StoredHeader(|data|)) + StreamBits(data)) + more
    ensures StoredPrefix(bytes) && Len(bytes) == |data|
    ensures bytes[4..4 + |data|] == data && more == StreamBits(bytes[4 + |data|..])
  {
    var h := StoredHeader(|data|);
    StreamAppend(h, data);
    StreamCancel(bytes, h + data, more);
    assert bytes[..4 + |data|] == h + data;
    assert bytes[0] == h[0] && bytes[1] == h[1] && bytes[2] == h[2] && bytes[3] == h[3];
    assert bytes[4..4 + |data|] == bytes[..4 + |data|][4..];
    assert (h + data)[4..] == data;
    HeaderValues(|data|);
  }

  lemma HeaderValues(len: nat)
    requires len < 0x10000
    ensures Len(StoredHeader(len)) == len && Nlen(StoredHeader(len)) == 0xffff - len
  {
  }

  /** The padding the block was written with is what the reader drops. */
  lemma PadIsOdd(offset: nat, numBits: nat, rest: nat)
    requires (offset + rest) % 8 == 0 && rest % 8 == numBits % 8
    ensures PadTo(offset) == numBits % 8
  {
    var o, r := offset % 8, rest % 8;
    assert (o + r) % 8 == 0;
  }

  method ReadStored(z: ZBuf, ghost expected: bool, ghost pad: seq<bool>, ghost data: seq<byte>, ghost more: seq<bool>,
                    ghost refused: bool, ghost s: seq<byte>)
    returns (ok: bool, ghost got: Block)
    requires z.Valid()
    requires expected ==> |pad| == z.numBits % 8 && |data| < 0x10000
    requires expected ==> z.Rest() == pad + ((StreamBits(StoredHeader(|data|)) + StreamBits(data)) + more)
    requires expected ==> |z.zout| + |data| <= z.Capacity()
    requires refused ==> RefusedBody(z, s)
    modifies z
    ensures z.Capacity() == old(z.Capacity())
    ensures z.Valid() && z.Ahead() <= old(z.Ahead()) && (old(z.Ahead()) == 0 ==> !ok)
    ensures expected ==> ok && z.Rest() == more && z.zout == old(z.zout) + data && z.hitEofOnce == old(z.hitEofOnce)
    ensures refused ==> !ok
    ensures ok ==> TookStored(got, old(z.numBits) % 8, old(z.Rest()), z.Rest()) && z.zout == old(z.zout) + got.data
  {
    hide StoredPrefix, Len, StreamBits, StoredHeader, TookStored, ZBuf.Rest, ZBuf.Ahead, RefusedBody, Room, BadStored;
    ghost var was, odd := z.Rest(), z.numBits % 8;
    RestLength(z);
    if expected { DropFront(pad, (StreamBits(StoredHeader(|data|)) + StreamBits(data)) + more); }
    if refused { RefusedBytes(z, s); }
    ghost var bytes;
    ok, bytes := ParseStored(z);
    if expected { StoredMeans(data, bytes, more); }
    if refused { SameStream(bytes, s[1..]); }
    got := Stored([], []);
    if ok {
      got := StoredGot(was, odd, bytes);
      StoredTaken(was, odd, bytes, z.Rest());
    }
  }

  /** A stored block has been read: its padding, its two lengths and its bytes. */
  ghost predicate TookStored(got: Block, odd: nat, was: seq<bool>, now: seq<bool>) {
    && got.Stored? && |got.data| < 0x10000 && |got.pad| == odd
    && was == got.pad + (StreamBits(StoredHeader(|got.data|)) + StreamBits(got.data)) + now
  }

  ghost function StoredGot(was: seq<bool>, odd: nat, bytes: seq<byte>): Block {
    if odd <= |was| && StoredPrefix(bytes) then Stored(was[..odd], bytes[4..4 + Len(bytes)]) else Stored([], [])
  }

  lemma StoredTaken(was: seq<bool>, odd: nat, bytes: seq<byte>, now: seq<bool>)
    requires odd <= |was| && StreamBits(bytes) == was[odd..] && StoredPrefix(bytes) && now == StreamBits(bytes[4 + Len(bytes)..])
    ensures StoredGot(was, odd, bytes) == Stored(was[..odd], bytes[4..4 + Len(bytes)])
    ensures TookStored(StoredGot(was, odd, bytes), odd, was, now)
  {
    var n := Len(bytes);
    var h, d, rest := bytes[..4], bytes[4..4 + n], bytes[4 + n..];
    HeaderIs(bytes);
    assert bytes == h + (d + rest);
    StreamAppend(h, d + rest);
    StreamAppend(d, rest);
    Assoc(StreamBits(h), StreamBits(d), StreamBits(rest));
    Assoc(was[..odd], StreamBits(h) + StreamBits(d), now);
    assert was == was[..odd] + was[odd..];
  }

  lemma HeaderIs(bytes: seq<byte>)
    requires StoredPrefix(bytes)
    ensures Len(bytes) < 0x10000 && bytes[..4] == StoredHeader(Len(bytes))
  {
    assert bytes[2] as int == Nlen(bytes) % 256 && bytes[3] as int == Nlen(bytes) / 256;
  }

  /** What the three header bits announce. */
  ghost predicate BodySpelled(b: Block, out: seq<byte>, offset: nat, rest: seq<bool>, more: seq<bool>) {
    && BlockOk(b, out, offset) && |more| >= 32 && (offset + 3 + |rest|) % 8 == 0
    && rest == BodyBits(b, out, offset) + more
  }

  ghost predicate RoomFor(z: ZBuf, size: nat)
    reads z
  {
    !z.hitEofOnce && size <= z.Capacity()
  }

  lemma StoredParts(b: Block, out: seq<byte>, offset: nat, rest: seq<bool>, more: seq<bool>, numBits: nat)
    requires BodySpelled(b, out, offset, rest, more) && b.Stored? && |rest| % 8 == numBits % 8
    ensures |b.data| < 0x10000 && |b.pad| == numBits % 8 && Expand(b, out, offset) == out + b.data
    ensures rest == b.pad + ((StreamBits(StoredHeader(|b.data|)) + StreamBits(b.data)) + more)
  {
    PadIsOdd(offset + 3, numBits, |rest|);
    Assoc(b.pad, StreamBits(StoredHeader(|b.data|)) + StreamBits(b.data), more);
  }

  lemma FixedParts(b: Block, out: seq<byte>, offset: nat, rest: seq<bool>, more: seq<bool>)
    requires BodySpelled(b, out, offset, rest, more) && b.Fixed?
    ensures CodedSpelled(FixedLengths(), FixedDistances(), b.items, out, rest, more)
    ensures Expand(b, out, offset) == Play(b.items, out)
  {
  }

  lemma DynamicParts(b: Block, out: seq<byte>, offset: nat, rest: seq<bool>, more: seq<bool>)
    requires BodySpelled(b, out, offset, rest, more) && b.Dynamic?
    ensures CodedOk(LitLengths(b.codes), DistLengths(b.codes), b.items, out)
    ensures var after := CodedBits(LitLengths(b.codes), DistLengths(b.codes), b.items) + more;
            CodesSpelled(b.codes, rest, after)
            && CodedSpelled(LitLengths(b.codes), DistLengths(b.codes), b.items, out, after, more)
    ensures Expand(b, out, offset) == Play(b.items, out)
  {
    Assoc(CodesBits(b.codes), CodedBits(LitLengths(b.codes), DistLengths(b.codes), b.items), more);
  }

  lemma RestLength(z: ZBuf)
    requires z.Valid()
    ensures |z.Rest()| % 8 == z.numBits % 8
  {
    StreamLength(z.zbuffer[z.pos..]);
  }

  /** The body of a block of type `t`. */
  method ReadBody(z: ZBuf, lt: ZHuffman, dt: ZHuffman, t: nat, ghost expected: bool, ghost b: Block,
                  ghost offset: nat, ghost more: seq<bool>, ghost refused: bool, ghost s: seq<byte>, ghost at: nat)
    returns (ok: bool, ghost got: Block)
    requires z.Valid() && lt.Shape() && dt.Shape() && lt.Tables() !! dt.Tables()
    requires t < 4 && (at + 3 + |z.Rest()|) % 8 == 0
    requires refused ==> t == 0 && RefusedBody(z, s)
    requires expected ==> t == BlockType(b) && BodySpelled(b, z.zout, offset, z.Rest(), more)
    requires expected ==> RoomFor(z, |Expand(b, z.zout, offset)|)
    modifies z, lt.Tables(), dt.Tables()
    ensures z.Capacity() == old(z.Capacity())
    ensures z.Valid() && z.Ahead() <= old(z.Ahead()) && (old(z.Ahead()) == 0 && t == 0 ==> !ok)
    ensures expected ==> ok && z.Rest() == more && z.zout == Expand(b, old(z.zout), offset) && !z.hitEofOnce
    ensures refused ==> !ok
    ensures ok ==> TookBody(got, t, old(z.zout), at, old(z.Rest()), z.Rest()) && z.zout == Expand(got, old(z.zout), at)
  {
    hide BodySpelled, CodedSpelled, CodesSpelled, TookBody, TookStored, TookCoded, TookDynamic, ZBuf.Rest, ZBuf.Ahead, Room,
         Expand, RefusedBody, CodedOk, CodesOk, Play, CodedBits, LitLengths, DistLengths, FixedLengths, FixedDistances,
         StreamBits, StoredHeader, ZHuffman.Shape, BlockOk, PadTo;
    ghost var was, out, odd := z.Rest(), z.zout, z.numBits % 8;
    got := Stored([], []);
    if t == 0 {
      RestLength(z);
      if expected { StoredParts(b, z.zout, offset, z.Rest(), more, z.numBits); }
      ok, got := ReadStored(z, expected, if expected then b.pad else [], if expected then b.data else [], more, refused, s);
      if ok { StoredBody(got, odd, out, at, was, z.Rest()); }
    } else if t == 3 {
      ok := false;
    } else if t == 1 {
      if expected { FixedParts(b, z.zout, offset, z.Rest(), more); }
      ghost var items;
      ok, items := ReadFixed(z, lt, dt, expected, if expected then b.items else [], more);
      got := Fixed(items);
      if ok { FixedBody(items, out, at, was, z.Rest()); }
    } else {
      ghost var c, items, after := Codes(0, 0, [], []), [], more;
      if expected {
        DynamicParts(b, z.zout, offset, z.Rest(), more);
        c, items := b.codes, b.items;
        after := CodedBits(LitLengths(c), DistLengths(c), items) + more;
      }
      ghost var codes;
      ok, codes, items := ReadDynamic(z, lt, dt, expected, c, items, after, more);
      got := Dynamic(codes, items);
      if ok { DynamicBody(codes, items, out, at, was, z.Rest()); }
    }
  }

  /** The body of the block `got`, of this type and at bit `at`, has been read. */
  ghost predicate TookBody(got: Block, t: nat, out: seq<byte>, at: nat, was: seq<bool>, now: seq<bool>) {
    BlockOk(got, out, at) && BlockType(got) == t && Took(was, BodyBits(got, out, at), now)
  }

  lemma StoredBody(got: Block, odd: nat, out: seq<byte>, at: nat, was: seq<bool>, now: seq<bool>)
    requires TookStored(got, odd, was, now) && odd < 8 && |was| % 8 == odd && (at + 3 + |was|) % 8 == 0
    ensures TookBody(got, 0, out, at, was, now) && Expand(got, out, at) == out + got.data
  {
    hide StreamBits, StoredHeader, Took;
    PadIsOdd(at + 3, odd, |was|);
    TookExactly(was, BodyBits(got, out, at), now);
  }

  lemma FixedBody(items: seq<Item>, out: seq<byte>, at: nat, was: seq<bool>, now: seq<bool>)
    requires TookCoded(FixedLengths(), FixedDistances(), items, out, was, now)
    ensures TookBody(Fixed(items), 1, out, at, was, now) && Expand(Fixed(items), out, at) == Play(items, out)
  {
    hide Took;
  }

  lemma DynamicBody(codes: Codes, items: seq<Item>, out: seq<byte>, at: nat, was: seq<bool>, now: seq<bool>)
    requires TookDynamic(codes, items, out, was, now)
    ensures TookBody(Dynamic(codes, items), 2, out, at, was, now)
    ensures Expand(Dynamic(codes, items), out, at) == Play(items, out)
  {
    hide Took, CodesOk;
  }

  lemma HeaderThenBody(b: Block, final: bool, out: seq<byte>, offset: nat, rest: seq<bool>, more: seq<bool>)
    requires BlockSpelled(b, final, out, offset, rest, more)
    ensures rest == [final] + (BitsOf(BlockType(b), 2) + (BodyBits(b, out, offset) + more))
    ensures BodySpelled(b, out, offset, BodyBits(b, out, offset) + more, more)
  {
    hide BodyBits, BlockOk, BitsOf;
    Assoc([final], BitsOf(BlockType(b), 2) + BodyBits(b, out, offset), more);
    Assoc(BitsOf(BlockType(b), 2), BodyBits(b, out, offset), more);
    HeaderAligned(final, BitsOf(BlockType(b), 2), BodyBits(b, out, offset) + more, offset, rest);
  }

  lemma HeaderAligned(final: bool, kind: seq<bool>, body: seq<bool>, offset: nat, rest: seq<bool>)
    requires |kind| == 2 && rest == [final] + (kind + body) && (offset + |rest|) % 8 == 0
    ensures (offset + 3 + |body|) % 8 == 0
  {
    assert offset + 3 + |body| == offset + |rest|;
  }

  /** The reader stands, with an empty bit buffer, before a bad stored block. */
  ghost predicate RefusedStart(z: ZBuf, s: seq<byte>)
    requires z.Valid()
    reads z
  {
    BadStored(s) && z.Rest() == StreamBits(s) && z.numBits == 0
  }

  /** One round of the loop in `stbi__parse_zlib`. */
  method ReadBlock(z: ZBuf, lt: ZHuffman, dt: ZHuffman, ghost expected: bool, ghost b: Block, ghost final: bool,
                   ghost offset: nat, ghost more: seq<bool>, ghost refused: bool, ghost s: seq<byte>, ghost at: nat)
    returns (ok: bool, last: bool, ghost got: Piece)
    requires z.Valid() && lt.Shape() && dt.Shape() && lt.Tables() !! dt.Tables()
    requires (at + |z.Rest()|) % 8 == 0
    requires refused ==> !expected && RefusedStart(z, s)
    requires expected ==> BlockSpelled(b, final, z.zout, offset, z.Rest(), more)
    requires expected ==> RoomFor(z, |Expand(b, z.zout, offset)|)
    modifies z, lt.Tables(), dt.Tables()
    ensures z.Capacity() == old(z.Capacity())
    ensures z.Valid() && (ok ==> z.Ahead() < old(z.Ahead()))
    ensures expected ==> ok && last == final && z.Rest() == more && z.zout == Expand(b, old(z.zout), offset)
                         && !z.hitEofOnce
    ensures refused ==> !ok
    ensures ok ==> TookPiece(got, last, old(z.zout), at, old(z.Rest()), z.Rest()) && z.zout == OutputOf(got)
                   && (at + |got.bits| + |z.Rest()|) % 8 == 0
  {
    hide BlockSpelled, BodySpelled, RefusedStart, TookPiece, TookBody, Took, ZBuf.Rest, ZBuf.Ahead, Room, Expand, BodyBits,
         StreamBits, BitsOf, BadStored, ZHuffman.Shape, BlockOk, OutputOf;
    ghost var was, out := z.Rest(), z.zout;
    ghost var body, kind, f := more, 0, final;
    if refused {
      RefusedStarts(z, s);
      BadStoredBits(s);
      f, body := s[0] % 2 == 1, BitsOf(s[0] / 8, 5) + StreamBits(s[1..]);
    }
    if expected {
      SpelledOk(b, final, z.zout, offset, z.Rest(), more);
      HeaderThenBody(b, final, z.zout, offset, z.Rest(), more);
      body, kind := BodyBits(b, z.zout, offset) + more, BlockType(b);
    }
    var t;
    last, t := ReadBlockHeader(z, f, kind, body);
    ghost var then1, block := z.Rest(), Stored([], []);
    TookAligned(was, [last] + BitsOf(t, 2), then1, at);
    if refused { RefusedGoesOn(z, s); }
    ok, block := ReadBody(z, lt, dt, t, expected, b, offset, more, refused, s, at);
    got := PieceOf(block, last, out, at);
    if ok { PieceTaken(block, t, last, out, at, was, then1, z.Rest()); }
  }

  lemma RefusedStarts(z: ZBuf, s: seq<byte>)
    requires z.Valid() && RefusedStart(z, s)
    ensures BadStored(s) && |s| >= 4 && z.Rest() == StreamBits(s) && z.numBits == 0
  {
  }

  lemma RefusedGoesOn(z: ZBuf, s: seq<byte>)
    requires z.Valid() && BadStored(s) && |s| >= 1 && z.Rest() == BitsOf(s[0] / 8, 5) + StreamBits(s[1..])
    ensures RefusedBody(z, s)
  {
  }

  lemma SpelledOk(b: Block, final: bool, out: seq<byte>, offset: nat, rest: seq<bool>, more: seq<bool>)
    requires BlockSpelled(b, final, out, offset, rest, more)
    ensures BlockOk(b, out, offset) && |more| >= 32
  {
  }

  ghost function PieceOf(b: Block, last: bool, out: seq<byte>, at: nat): Piece {
    Piece(b, out, at, BlockBits(b, last, out, at))
  }

  /** The piece `got` has been read, header and body. */
  ghost predicate TookPiece(got: Piece, last: bool, out: seq<byte>, at: nat, was: seq<bool>, now: seq<bool>) {
    PieceOk(got, last) && got.out == out && got.offset == at && Took(was, got.bits, now)
  }

  lemma PieceTaken(b: Block, t: nat, last: bool, out: seq<byte>, at: nat, was: seq<bool>, then1: seq<bool>, now: seq<bool>)
    requires Took(was, [last] + BitsOf(t, 2), then1) && TookBody(b, t, out, at, then1, now) && (at + |was|) % 8 == 0
    ensures var p := PieceOf(b, last, out, at);
            TookPiece(p, last, out, at, was, now) && OutputOf(p) == Expand(b, out, at) && (at + |p.bits| + |now|) % 8 == 0
  {
    hide Took, BodyBits, BlockOk, Expand, BitsOf;
    TookThen(was, [last] + BitsOf(t, 2), then1, BodyBits(b, out, at), now);
    Assoc([last], BitsOf(t, 2), BodyBits(b, out, at));
    TookAligned(was, PieceOf(b, last, out, at).bits, now, at);
  }

  /** The pieces read so far, none of them final: they end in this output at this bit. */
  ghost predicate Chain(got: seq<Piece>, out: seq<byte>, at: nat) {
    if got == [] then out == [] && at == 0
    else
      var p := got[|got| - 1];
      Chain(got[..|got| - 1], p.out, p.offset) && PieceOk(p, false) && out == OutputOf(p) && at == p.offset + |p.bits|
  }

  lemma {:induction false} ChainParts(got: seq<Piece>, out: seq<byte>, at: nat)
    requires Chain(got, out, at)
    ensures got != [] ==> got[0].out == [] && got[0].offset == 0
    ensures forall i :: 0 <= i < |got| ==> PieceOk(got[i], false)
    ensures forall i :: 0 <= i < |got| - 1 ==> FollowsAt(got, i)
    decreases |got|
  {
    hide PieceOk, OutputOf;
    if got != [] {
      var init, p := got[..|got| - 1], got[|got| - 1];
      ChainParts(init, p.out, p.offset);
      forall i | 0 <= i < |got| - 1 ensures FollowsAt(got, i) {
        if i < |init| - 1 { assert FollowsAt(init, i); }
      }
    }
  }

  /** With a final piece behind them they are a stream. */
  lemma ChainEnds(got: seq<Piece>, p: Piece)
    requires Chain(got, p.out, p.offset) && PieceOk(p, true)
    ensures IsStream(got + [p], OutputOf(p))
  {
    hide PieceOk, OutputOf;
    ChainParts(got, p.out, p.offset);
    var all := got + [p];
    forall i | 0 <= i < |all| ensures PieceAt(all, i) {
      if i < |got| { assert PieceOk(got[i], false); }
    }
    forall i | 0 <= i < |all| - 1 ensures FollowsAt(all, i) {
      if i < |got| - 1 { assert FollowsAt(got, i); }
    }
  }

  lemma {:induction false} BitsFromMore(got: seq<Piece>, p: Piece, i: nat)
    requires i <= |got|
    ensures BitsFrom(got + [p], i) == BitsFrom(got, i) + p.bits
    decreases |got| - i
  {
    var all := got + [p];
    if i == |got| {
      assert all[i] == p && BitsFrom(all, i + 1) == [] && p.bits + [] == p.bits;
    } else {
      assert all[i] == got[i];
      BitsFromMore(got, p, i + 1);
      Assoc(got[i].bits, BitsFrom(got, i + 1), p.bits);
    }
  }

  /** The pieces `got` have been read. */
  ghost predicate TookPieces(got: seq<Piece>, out: seq<byte>, at: nat, was: seq<bool>, now: seq<bool>) {
    Chain(got, out, at) && Took(was, BitsFrom(got, 0), now)
  }

  lemma PiecesStart(was: seq<bool>)
    ensures TookPieces([], [], 0, was, was)
  {
    TookNothing(was);
  }

  lemma PiecesMore(got: seq<Piece>, out: seq<byte>, at: nat, was: seq<bool>, before: seq<bool>, p: Piece, now: seq<bool>)
    requires TookPieces(got, out, at, was, before) && TookPiece(p, false, out, at, before, now)
    ensures TookPieces(got + [p], OutputOf(p), at + |p.bits|, was, now)
  {
    hide Took, PieceOk, OutputOf;
    assert (got + [p])[..|got|] == got;
    BitsFromMore(got, p, 0);
    TookThen(was, BitsFrom(got, 0), before, p.bits, now);
  }

  lemma PiecesEnd(got: seq<Piece>, out: seq<byte>, at: nat, was: seq<bool>, before: seq<bool>, p: Piece, now: seq<bool>)
    requires TookPieces(got, out, at, was, before) && TookPiece(p, true, out, at, before, now)
    ensures TookStream(got + [p], OutputOf(p), was, now)
  {
    hide Took, PieceOk, OutputOf, IsStream;
    ChainEnds(got, p);
    BitsFromMore(got, p, 0);
    TookThen(was, BitsFrom(got, 0), before, p.bits, now);
  }

  /** A whole stream has been read that stands for `data`. */
  ghost predicate TookStream(got: seq<Piece>, data: seq<byte>, was: seq<bool>, now: seq<bool>) {
    IsStream(got, data) && Took(was, BitsFrom(got, 0), now)
  }

  /** From piece `i` on, the stream spells the pieces and then `more` up to a byte boundary. */
  ghost predicate PiecesSpelled(pieces: seq<Piece>, data: seq<byte>, i: nat, rest: seq<bool>, more: seq<bool>) {
    && IsStream(pieces, data) && i < |pieces| && |more| >= 32 && (pieces[i].offset + |rest|) % 8 == 0
    && rest == BitsFrom(pieces, i) + more
  }

  lemma PieceSpelled(pieces: seq<Piece>, data: seq<byte>, i: nat, rest: seq<bool>, more: seq<bool>)
    requires PiecesSpelled(pieces, data, i, rest, more)
    ensures var p := pieces[i];
            BlockSpelled(p.block, i == |pieces| - 1, p.out, p.offset, rest, BitsFrom(pieces, i + 1) + more)
            && |OutputOf(p)| <= |data|
  {
    assert PieceAt(pieces, i);
    OutputGrows(pieces, data, i);
    Assoc(pieces[i].bits, BitsFrom(pieces, i + 1), more);
  }

  lemma NextSpelled(pieces: seq<Piece>, data: seq<byte>, i: nat, rest: seq<bool>, more: seq<bool>)
    requires PiecesSpelled(pieces, data, i, rest, more) && i < |pieces| - 1
    ensures PiecesSpelled(pieces, data, i + 1, BitsFrom(pieces, i + 1) + more, more)
    ensures pieces[i + 1].out == OutputOf(pieces[i])
  {
    assert FollowsAt(pieces, i);
    Assoc(pieces[i].bits, BitsFrom(pieces, i + 1), more);
    assert pieces[i + 1].offset + |BitsFrom(pieces, i + 1) + more| == pieces[i].offset + |rest|;
  }

  /** The same, and the output so far is that of the pieces before. */
  ghost predicate PiecesAhead(pieces: seq<Piece>, data: seq<byte>, i: nat, rest: seq<bool>, more: seq<bool>, out: seq<byte>) {
    PiecesSpelled(pieces, data, i, rest, more) && out == pieces[i].out
  }

  lemma PieceAhead(pieces: seq<Piece>, data: seq<byte>, i: nat, rest: seq<bool>, more: seq<bool>, out: seq<byte>)
    requires PiecesAhead(pieces, data, i, rest, more, out)
    ensures i < |pieces| && out == pieces[i].out
    ensures var p := pieces[i];
            BlockSpelled(p.block, i == |pieces| - 1, p.out, p.offset, rest, BitsFrom(pieces, i + 1) + more)
            && |OutputOf(p)| <= |data|
    ensures i < |pieces| - 1 ==>
              PiecesAhead(pieces, data, i + 1, BitsFrom(pieces, i + 1) + more, more, OutputOf(pieces[i]))
    ensures i == |pieces| - 1 ==> BitsFrom(pieces, i + 1) + more == more && OutputOf(pieces[i]) == data
  {
    hide OutputOf;
    PieceSpelled(pieces, data, i, rest, more);
    if i < |pieces| - 1 { NextSpelled(pieces, data, i, rest, more); } else { LastSpelled(pieces, data, more); }
  }

  lemma LastSpelled(pieces: seq<Piece>, data: seq<byte>, more: seq<bool>)
    requires IsStream(pieces, data)
    ensures BitsFrom(pieces, |pieces|) + more == more && OutputOf(pieces[|pieces| - 1]) == data
  {
  }

  /** The loop of `stbi__parse_zlib`. */
  method ReadBlocks(z: ZBuf, lt: ZHuffman, dt: ZHuffman, ghost expected: bool, ghost pieces: seq<Piece>,
                    ghost data: seq<byte>, ghost more: seq<bool>, ghost refused: bool, ghost s: seq<byte>)
    returns (ok: bool, ghost got: seq<Piece>)
    requires z.Valid() && lt.Shape() && dt.Shape() && lt.Tables() !! dt.Tables()
    requires z.zout == [] && |z.Rest()| % 8 == 0
    requires refused ==> !expected && RefusedStart(z, s)
    requires expected ==> PiecesAhead(pieces, data, 0, z.Rest(), more, []) && RoomFor(z, |data|)
    modifies z, lt.Tables(), dt.Tables()
    ensures z.Capacity() == old(z.Capacity())
    ensures z.Valid()
    ensures expected ==> ok && z.Rest() == more && z.zout == data
    ensures refused ==> !ok
    ensures ok ==> TookStream(got, z.zout, old(z.Rest()), z.Rest())
  {
    hide PiecesAhead, BlockSpelled, RefusedStart, TookStream, TookPieces, TookPiece, Took, ZBuf.Rest, ZBuf.Ahead, Room,
         IsStream, BitsFrom, ZHuffman.Shape, Expand;
    ghost var i: nat, at: nat, was := 0, 0, z.Rest();
    got := [];
    PiecesStart(was);
    while true
      invariant z.Valid() && z.Capacity() == old(z.Capacity())
      invariant TookPieces(got, z.zout, at, was, z.Rest()) && (at + |z.Rest()|) % 8 == 0
      invariant expected ==> PiecesAhead(pieces, data, i, z.Rest(), more, z.zout) && RoomFor(z, |data|)
      invariant refused ==> RefusedStart(z, s)
      decreases z.Ahead()
    {
      ghost var p, after, final := Piece(Fixed([]), [], 0, []), more, false;
      if expected {
        PieceAhead(pieces, data, i, z.Rest(), more, z.zout);
        p, after, final := pieces[i], BitsFrom(pieces, i + 1) + more, i == |pieces| - 1;
      }
      ghost var before, out, piece := z.Rest(), z.zout, p;
      var fine, last;
      fine, last, piece := ReadBlock(z, lt, dt, expected, p.block, final, p.offset, after, refused, s, at);
      if !fine { return false, got; }
      if last {
        PiecesEnd(got, out, at, was, before, piece, z.Rest());
        return true, got + [piece];
      }
      PiecesMore(got, out, at, was, before, piece, z.Rest());
      got, at, i := got + [piece], at + |piece.bits|, i + 1;
    }
  }

  /** `stbi__parse_zlib_header` accepts these two bytes, if more follow. */
  predicate HeaderOk(bytes: seq<byte>) {
    |bytes| > 2 && (bytes[0] as int * 256 + bytes[1] as int) % 31 == 0 && (bytes[1] / 32) % 2 == 0 && bytes[0] % 16 == 8
  }

  method ReadZlibHeader(z: ZBuf) returns (ok: bool)
    requires z.Valid() && z.numBits == 0 && z.pos == 0
    modifies z`pos
    ensures z.Valid() && ok == HeaderOk(z.zbuffer) && (ok ==> z.pos == 2)
  {
    var cmf := Get8(z);
    var flg := Get8(z);
    if z.AtEof() { return false; }
    if (cmf as int * 256 + flg as int) % 31 != 0 { return false; }
    if (flg / 32) % 2 == 1 { return false; }
    if cmf % 16 != 8 { return false; }
    return true;
  }

  /** The stream proper, behind the two header bytes when there are any. */
  function Body(bytes: seq<byte>, parseHeader: bool): seq<byte> {
    if parseHeader && |bytes| >= 2 then bytes[2..] else bytes
  }

  /** `stbi__do_zlib`: every well-formed stream with at least four bytes behind it (the zlib
      checksum, which is not read) inflates to what it stands for. */
  method DoZlib(bytes: seq<byte>, size: nat, mayGrow: bool, parseHeader: bool, ghost expected: bool,
                ghost pieces: seq<Piece>, ghost data: seq<byte>, ghost more: seq<bool>)
    returns (ok: bool, out: seq<byte>, ghost got: seq<Piece>, ghost left: seq<bool>)
    requires 1 <= size <= UINT_MAX
    requires expected ==> IsStream(pieces, data) && |more| >= 32
                          && StreamBits(Body(bytes, parseHeader)) == BitsFrom(pieces, 0) + more
    requires expected ==> |data| <= Room(size, mayGrow) && (parseHeader ==> HeaderOk(bytes))
    ensures expected ==> ok && out == data
    ensures ok && parseHeader ==> HeaderOk(bytes)
    ensures !expected && BadStored(Body(bytes, parseHeader)) ==> !ok
    ensures ok ==> TookStream(got, out, StreamBits(Body(bytes, parseHeader)), left) && |out| <= Room(size, mayGrow)
  {
    hide PiecesAhead, IsStream, TookStream, BitsFrom, ZHuffman.Shape, ZBuf.Ahead, BadStored, StreamBits, Room;
    var z := new ZBuf(bytes, size, mayGrow);
    out, got, left := [], [], [];
    if parseHeader {
      ok := ReadZlibHeader(z);
      if !ok { return; }
    }
    var lt := new ZHuffman();
    var dt := new ZHuffman();
    ghost var s := Body(bytes, parseHeader);
    assert z.zbuffer[z.pos..] == s;
    assert z.Rest() == StreamBits(s) by { assert BitsOf(0, 0) + StreamBits(s) == StreamBits(s); }
    StreamLength(s);
    if expected { StreamSpelled(pieces, data, z.Rest(), more); }
    RoomBounds(size, mayGrow);
    ok, got := ReadBlocks(z, lt, dt, expected, pieces, data, more, !expected && BadStored(s), s);
    RoomBounds(z.limit, mayGrow);
    out, left := z.zout, z.Rest();
  }

  lemma StreamSpelled(pieces: seq<Piece>, data: seq<byte>, rest: seq<bool>, more: seq<bool>)
    requires IsStream(pieces, data) && |more| >= 32 && |rest| % 8 == 0 && rest == BitsFrom(pieces, 0) + more
    ensures PiecesAhead(pieces, data, 0, rest, more, [])
  {
  }
}
