/** `stbi_zlib_compress`: fixed-code LZ77, stored blocks when that does not pay, checksum. */
module ZlibWriter {
  import opened Bits
  import opened HuffmanCode
  import opened Deflate
  import opened Adler
  import opened ZlibOut
  import opened Lz77
  import opened ZlibEmit

  const HEADER: seq<byte> := [0x78, 0x5e]
  const STORED_MAX := 32767

  /** The matching loop; the last three bytes are left alone. */
  method WriteMatches(z: ZOut, data: seq<byte>, quality: nat, ghost start: seq<bool>)
    returns (i: nat, ghost items: seq<Item>)
    requires z.Valid() && z.Written() == start
    modifies z
    ensures Progress(z, start, items, data, i)
  {
    hide Progress, Longest, Better, Bucket, Pushed, ZHash, ZOut.Written;
    var table := new seq<nat>[ZHASH](_ => []);
    i, items := 0, [];
    ProgressNone(z, start, data);
    while i < |data| - 3
      invariant Progress(z, start, items, data, i)
      invariant ChainsBefore(table, i)
    {
      var best, loc;
      ghost var found;
      best, loc, found := Search(data, table, i, quality);
      if loc >= 0 {
        items := WriteCopy(z, data, i, best, loc, start, items);
        ChainsLater(table, i + 1, i + best);
        i := i + best;
      } else {
        items := WriteLiteral(z, data, i, start, items);
        i := i + 1;
      }
    }
  }

  lemma ProgressNone(z: ZOut, start: seq<bool>, data: seq<byte>)
    requires z.Valid() && z.Written() == start
    ensures Progress(z, start, [], data, 0)
  {
    assert start + [] == start;
  }

  /** Matches, then the remaining bytes as literals. */
  method WriteItems(z: ZOut, data: seq<byte>, quality: nat, ghost start: seq<bool>) returns (ghost items: seq<Item>)
    requires z.Valid() && z.Written() == start
    modifies z
    ensures Progress(z, start, items, data, |data|)
  {
    var i;
    i, items := WriteMatches(z, data, quality, start);
    while i < |data|
      invariant Progress(z, start, items, data, i)
    {
      items := WriteLiteral(z, data, i, start, items);
      i := i + 1;
    }
    assert data[..i] == data;
  }

  lemma ChainsLater(table: array<seq<nat>>, i: nat, j: nat)
    requires ChainsBefore(table, i) && i <= j
    ensures ChainsBefore(table, j)
  {
  }

  /** The bits in front of the items: zlib header, final bit, block type 1. */
  method WriteStart(z: ZOut) returns (ghost start: seq<bool>)
    requires z.Valid() && z.out == [] && z.bitcount == 0
    modifies z
    ensures z.Valid() && z.Written() == start
    ensures start == StreamBits(HEADER) + ([true] + BitsOf(1, 2))
  {
    hide StreamBits, BitsOf, ZOut.Written;
    z.out := z.out + [0x78];
    z.out := z.out + [0x5e];
    assert z.out == HEADER;
    EmptyBuffer(z);
    assert Pow2(1) == 2 && Pow2(2) == 4;
    z.Add(1, 1);
    z.Add(1, 2);
    FinalBit();
    Assoc(StreamBits(HEADER), [true], BitsOf(1, 2));
    start := z.Written();
  }

  lemma FinalBit()
    ensures BitsOf(1, 1) == [true]
  {
    BitsStep(1, 1);
    assert BitsOf(0, 0) == [];
  }

  lemma EmptyBuffer(z: ZOut)
    requires z.bitcount == 0
    ensures z.Written() == StreamBits(z.out)
  {
    assert StreamBits(z.out) + [] == StreamBits(z.out);
  }

  /** The whole stream as one block in the fixed code. */
  method CompressFixed(data: seq<byte>, quality: nat) returns (out: seq<byte>, ghost b: Block, ghost pad: seq<bool>)
    ensures b.Fixed? && BlockOk(b, [], 0) && Expand(b, [], 0) == data
    ensures HEADER <= out && StreamBits(out[2..]) == BlockBits(b, true, [], 0) + pad
  {
    var z := new ZOut();
    ghost var start := WriteStart(z);
    ghost var items := WriteItems(z, data, quality, start);
    z.Huff(END_OF_BLOCK);
    pad := z.Pad();
    out := z.out;
    b := Fixed(items);
    EmptyBuffer(z);
    FixedShape(out, items, pad);
  }

  lemma FixedShape(out: seq<byte>, items: seq<Item>, pad: seq<bool>)
    requires SpellsAll(FixedLengths(), FixedDistances(), items) && Playable(items, [])
    requires StreamBits(out) == StreamBits(HEADER) + ([true] + BitsOf(1, 2))
                                + ItemsBits(FixedLengths(), FixedDistances(), items)
                                + CodeBits(FixedLengths(), END_OF_BLOCK) + pad
    ensures BlockOk(Fixed(items), [], 0) && Expand(Fixed(items), [], 0) == Play(items, [])
    ensures HEADER <= out && StreamBits(out[2..]) == BlockBits(Fixed(items), true, [], 0) + pad
  {
    var coded := CodedBits(FixedLengths(), FixedDistances(), items);
    var block := [true] + (BitsOf(1, 2) + coded);
    AssocBlock(StreamBits(HEADER), [true], BitsOf(1, 2), ItemsBits(FixedLengths(), FixedDistances(), items),
               CodeBits(FixedLengths(), END_OF_BLOCK), pad);
    StreamCancel(out, HEADER, block + pad);
  }

  lemma AssocBlock(h: seq<bool>, a: seq<bool>, b: seq<bool>, c: seq<bool>, d: seq<bool>, p: seq<bool>)
    ensures (((h + (a + b)) + c) + d) + p == h + ((a + (b + (c + d))) + p)
  {
    Assoc(h + (a + b), c, d);
    Assoc(h, a + b, c + d);
    Assoc(a, b, c + d);
    Assoc(h, a + (b + (c + d)), p);
  }

  // ---------------------------------------------------------------- stored blocks

  predicate OpenAt(pieces: seq<Piece>, i: nat)
    requires i < |pieces|
  {
    PieceOk(pieces[i], false)
  }

  /** A run of blocks, none of them final, that ends with output `out` at bit `offset`. */
  predicate OpenRun(pieces: seq<Piece>, out: seq<byte>, offset: nat) {
    && (forall i {:trigger OpenAt(pieces, i)} :: 0 <= i < |pieces| ==> OpenAt(pieces, i))
    && (forall i {:trigger FollowsAt(pieces, i)} :: 0 <= i < |pieces| - 1 ==> FollowsAt(pieces, i))
    && if pieces == [] then out == [] && offset == 0
       else
         && pieces[0].out == [] && pieces[0].offset == 0
         && out == OutputOf(pieces[|pieces| - 1])
         && offset == pieces[|pieces| - 1].offset + |pieces[|pieces| - 1].bits|
  }

  lemma FollowsAppend(pieces: seq<Piece>, p: Piece, out: seq<byte>, offset: nat)
    requires OpenRun(pieces, out, offset) && p.out == out && p.offset == offset
    ensures forall i {:trigger FollowsAt(pieces + [p], i)} :: 0 <= i < |pieces| ==> FollowsAt(pieces + [p], i)
    ensures (pieces + [p])[0].out == [] && (pieces + [p])[0].offset == 0
  {
    var all := pieces + [p];
    forall i | 0 <= i < |pieces| ensures FollowsAt(all, i) {
      assert all[i] == pieces[i];
      if i < |pieces| - 1 { assert FollowsAt(pieces, i) && all[i + 1] == pieces[i + 1]; }
    }
  }

  lemma OpenAppend(pieces: seq<Piece>, p: Piece, out: seq<byte>, offset: nat)
    requires OpenRun(pieces, out, offset)
    ensures forall i {:trigger OpenAt(pieces + [p], i)} :: 0 <= i < |pieces| ==> OpenAt(pieces + [p], i)
  {
    forall i | 0 <= i < |pieces| ensures OpenAt(pieces + [p], i) {
      assert OpenAt(pieces, i) && (pieces + [p])[i] == pieces[i];
    }
  }

  lemma OpenStep(pieces: seq<Piece>, p: Piece, out: seq<byte>, offset: nat)
    requires OpenRun(pieces, out, offset) && p.out == out && p.offset == offset && PieceOk(p, false)
    ensures OpenRun(pieces + [p], OutputOf(p), offset + |p.bits|)
  {
    FollowsAppend(pieces, p, out, offset);
    OpenAppend(pieces, p, out, offset);
    var all := pieces + [p];
    assert OpenAt(all, |pieces|);
  }

  lemma CloseRun(pieces: seq<Piece>, p: Piece, out: seq<byte>, offset: nat)
    requires OpenRun(pieces, out, offset) && p.out == out && p.offset == offset && PieceOk(p, true)
    ensures IsStream(pieces + [p], OutputOf(p))
  {
    FollowsAppend(pieces, p, out, offset);
    OpenAppend(pieces, p, out, offset);
    var all := pieces + [p];
    forall i | 0 <= i < |all| ensures PieceAt(all, i) {
      if i < |pieces| { assert OpenAt(all, i); }
    }
  }

  lemma {:induction false} BitsFromAppend(pieces: seq<Piece>, p: Piece, i: nat)
    requires i <= |pieces|
    ensures BitsFrom(pieces + [p], i) == BitsFrom(pieces, i) + p.bits
    decreases |pieces| - i
  {
    var all := pieces + [p];
    if i == |pieces| {
      assert BitsFrom(all, i + 1) == [];
    } else {
      BitsFromAppend(pieces, p, i + 1);
      assert all[i] == pieces[i];
      Assoc(pieces[i].bits, BitsFrom(pieces, i + 1), p.bits);
    }
  }

  /** A stored block that starts on a byte boundary, as bytes. */
  function StoredBytes(chunk: seq<byte>, final: bool): seq<byte>
    requires |chunk| < 0x10000
  {
    [if final then 1 else 0] + StoredHeader(|chunk|) + chunk
  }

  function StoredPiece(chunk: seq<byte>, final: bool, out: seq<byte>, offset: nat): Piece
    requires |chunk| < 0x10000
  {
    Piece(Stored(BitsOf(0, 5), chunk), out, offset, StreamBits(StoredBytes(chunk, final)))
  }

  lemma StoredPieceOk(chunk: seq<byte>, final: bool, out: seq<byte>, offset: nat)
    requires |chunk| < 0x10000 && offset % 8 == 0
    ensures PieceOk(StoredPiece(chunk, final, out, offset), final)
    ensures OutputOf(StoredPiece(chunk, final, out, offset)) == out + chunk
    ensures |StoredPiece(chunk, final, out, offset).bits| == 8 * (5 + |chunk|)
  {
    var b := Stored(BitsOf(0, 5), chunk);
    StreamLength(StoredBytes(chunk, final));
    assert BlockOk(b, out, offset);
    StoredBits(StoredHeader(|chunk|), chunk, final);
  }

  lemma StoredBits(h: seq<byte>, chunk: seq<byte>, final: bool)
    ensures StreamBits([if final then 1 else 0] + h + chunk)
         == [final] + (BitsOf(0, 2) + (BitsOf(0, 5) + (StreamBits(h) + StreamBits(chunk))))
  {
    var head: byte := if final then 1 else 0;
    ByteAsHeader(head);
    Assoc([head], h, chunk);
    StreamAppend([head], h + chunk);
    StreamOne(head);
    StreamAppend(h, chunk);
    AssocHead([final], BitsOf(0, 2), BitsOf(0, 5), StreamBits(h) + StreamBits(chunk));
  }

  lemma AssocHead(a: seq<bool>, b: seq<bool>, c: seq<bool>, d: seq<bool>)
    ensures (a + (b + c)) + d == a + (b + (c + d))
  {
    Assoc(a, b + c, d);
    Assoc(b, c, d);
  }

  /** The loop over the blocks: `j` bytes stored, `out` holds them after the zlib header. */
  ghost predicate StoredSoFar(pieces: seq<Piece>, data: seq<byte>, j: nat, out: seq<byte>) {
    && j <= |data| && HEADER <= out
    && OpenRun(pieces, data[..j], 8 * (|out| - 2))
    && BitsFrom(pieces, 0) == StreamBits(out[2..])
  }

  lemma StoredOpen(data: seq<byte>)
    ensures StoredSoFar([], data, 0, HEADER)
  {
    assert data[..0] == [];
    assert HEADER[2..] == [];
  }

  lemma StoredBitsStep(pieces: seq<Piece>, p: Piece, out: seq<byte>, more: seq<byte>)
    requires HEADER <= out && BitsFrom(pieces, 0) == StreamBits(out[2..]) && p.bits == StreamBits(more)
    ensures HEADER <= out + more && BitsFrom(pieces + [p], 0) == StreamBits((out + more)[2..])
  {
    BitsFromAppend(pieces, p, 0);
    StreamAppend(out[2..], more);
    assert (out + more)[2..] == out[2..] + more;
  }

  lemma StoredOpenStep(pieces: seq<Piece>, chunk: seq<byte>, before: seq<byte>, offset: nat)
    requires OpenRun(pieces, before, offset) && |chunk| < 0x10000 && offset % 8 == 0
    ensures OpenRun(pieces + [StoredPiece(chunk, false, before, offset)], before + chunk, offset + 8 * (5 + |chunk|))
  {
    StoredPieceOk(chunk, false, before, offset);
    OpenStep(pieces, StoredPiece(chunk, false, before, offset), before, offset);
  }

  lemma StoredClose(pieces: seq<Piece>, chunk: seq<byte>, before: seq<byte>, offset: nat)
    requires OpenRun(pieces, before, offset) && |chunk| < 0x10000 && offset % 8 == 0
    ensures IsStream(pieces + [StoredPiece(chunk, true, before, offset)], before + chunk)
  {
    StoredPieceOk(chunk, true, before, offset);
    CloseRun(pieces, StoredPiece(chunk, true, before, offset), before, offset);
  }

  /** One stored block of `n` bytes that is not the last. */
  lemma StoredStep(pieces: seq<Piece>, data: seq<byte>, j: nat, n: nat, out: seq<byte>)
    requires StoredSoFar(pieces, data, j, out) && n < 0x10000 && j + n < |data|
    ensures var p := StoredPiece(data[j..j + n], false, data[..j], 8 * (|out| - 2));
            StoredSoFar(pieces + [p], data, j + n, out + StoredBytes(data[j..j + n], false))
  {
    var chunk, before, offset := data[j..j + n], data[..j], 8 * (|out| - 2);
    StoredOpenStep(pieces, chunk, before, offset);
    StoredBitsStep(pieces, StoredPiece(chunk, false, before, offset), out, StoredBytes(chunk, false));
    assert before + chunk == data[..j + n];
    assert 8 * (|out + StoredBytes(chunk, false)| - 2) == offset + 8 * (5 + |chunk|);
  }

  lemma StoredLast(pieces: seq<Piece>, data: seq<byte>, j: nat, out: seq<byte>)
    requires StoredSoFar(pieces, data, j, out) && |data| - j < 0x10000
    ensures var p := StoredPiece(data[j..], true, data[..j], 8 * (|out| - 2));
            var now := out + StoredBytes(data[j..], true);
            IsStream(pieces + [p], data) && HEADER <= now && BitsFrom(pieces + [p], 0) == StreamBits(now[2..])
  {
    var chunk, before, offset := data[j..], data[..j], 8 * (|out| - 2);
    StoredClose(pieces, chunk, before, offset);
    StoredBitsStep(pieces, StoredPiece(chunk, true, before, offset), out, StoredBytes(chunk, true));
    assert before + chunk == data;
  }

  /** Blocks a stored stream of `n` bytes takes. */
  function StoredBlocks(n: nat): nat {
    (n + STORED_MAX - 1) / STORED_MAX
  }

  lemma StoredBlocksStep(n: nat)
    requires n > 0
    ensures StoredBlocks(n) == 1 + StoredBlocks(if n > STORED_MAX then n - STORED_MAX else 0)
  {
  }

  /** One turn of the fallback loop: header bytes and the block itself. */
  method PushStored(out: seq<byte>, data: seq<byte>, j: nat) returns (now: seq<byte>, n: nat)
    requires j < |data|
    ensures n == (if |data| - j > STORED_MAX then STORED_MAX else |data| - j)
    ensures now == out + StoredBytes(data[j..j + n], |data| - j == n)
  {
    n := |data| - j;
    if n > STORED_MAX { n := STORED_MAX; }
    now := out + [if |data| - j == n then 1 else 0];
    now := now + [n % 256] + [n / 256 % 256];
    now := now + [(0xffff - n) % 256] + [(0xffff - n) / 256 % 256];
    now := now + data[j..j + n];
  }

  /** Before the last block the run is open, after it the stream is complete. */
  ghost predicate StoreInvariant(pieces: seq<Piece>, data: seq<byte>, j: nat, out: seq<byte>) {
    if j < |data| then StoredSoFar(pieces, data, j, out)
    else IsStream(pieces, data) && HEADER <= out && BitsFrom(pieces, 0) == StreamBits(out[2..])
  }

  lemma StoreTurn(pieces: seq<Piece>, data: seq<byte>, j: nat, n: nat, out: seq<byte>)
    requires j < |data| && StoreInvariant(pieces, data, j, out) && n < 0x10000 && j + n <= |data|
    ensures var last := |data| - j == n;
            var p := StoredPiece(data[j..j + n], last, data[..j], 8 * (|out| - 2));
            StoreInvariant(pieces + [p], data, j + n, out + StoredBytes(data[j..j + n], last))
  {
    if |data| - j == n {
      assert data[j..j + n] == data[j..];
      StoredLast(pieces, data, j, out);
    } else {
      StoredStep(pieces, data, j, n, out);
    }
  }

  /** The fallback: everything in stored blocks. */
  method StoreAll(data: seq<byte>) returns (out: seq<byte>, ghost pieces: seq<Piece>)
    ensures HEADER <= out && |out| == 2 + |data| + 5 * StoredBlocks(|data|)
    ensures data != [] ==> IsStream(pieces, data) && BitsFrom(pieces, 0) == StreamBits(out[2..])
  {
    out, pieces := HEADER, [];
    StoredOpen(data);
    var j := 0;
    while j < |data|
      invariant j <= |data| && HEADER <= out
      invariant |out| + 5 * StoredBlocks(|data| - j) == 2 + j + 5 * StoredBlocks(|data|)
      invariant data != [] ==> StoreInvariant(pieces, data, j, out)
    {
      var now, n := PushStored(out, data, j);
      StoredBlocksStep(|data| - j);
      StoreTurn(pieces, data, j, n, out);
      pieces := pieces + [StoredPiece(data[j..j + n], |data| - j == n, data[..j], 8 * (|out| - 2))];
      out := now;
      j := j + n;
    }
  }

  // ---------------------------------------------------------------- the compressor

  /** A single final block is a whole stream. */
  lemma OneBlock(b: Block, data: seq<byte>)
    requires BlockOk(b, [], 0) && Expand(b, [], 0) == data
    ensures var p := Piece(b, [], 0, BlockBits(b, true, [], 0));
            IsStream([p], data) && BitsFrom([p], 0) == BlockBits(b, true, [], 0)
  {
    var p := Piece(b, [], 0, BlockBits(b, true, [], 0));
    assert PieceAt([p], 0);
    assert BitsFrom([p], 1) == [];
  }

  /** `out` holds a zlib header, then the bits of the pieces and padding. */
  ghost predicate Streamed(out: seq<byte>, pieces: seq<Piece>, data: seq<byte>, pad: seq<bool>) {
    HEADER <= out && IsStream(pieces, data) && StreamBits(out[2..]) == BitsFrom(pieces, 0) + pad
  }

  lemma FixedIsLong(out: seq<byte>, b: Block, pad: seq<bool>)
    requires HEADER <= out && b.Fixed? && BlockOk(b, [], 0) && StreamBits(out[2..]) == BlockBits(b, true, [], 0) + pad
    ensures |out| > 2
  {
    StreamLength(out[2..]);
  }

  /** The compressed stream before its checksum.  Falling back never makes it longer,
      so the stored bytes fit the buffer that held the first attempt. */
  method CompressBody(data: seq<byte>, quality: nat) returns (out: seq<byte>, ghost pieces: seq<Piece>, ghost pad: seq<bool>)
    ensures |out| <= |data| + 2 + StoredBlocks(|data|) * 5
    ensures data == [] ==> out == HEADER
    ensures data != [] ==> Streamed(out, pieces, data, pad)
  {
    ghost var b;
    out, b, pad := CompressFixed(data, quality);
    FixedIsLong(out, b, pad);
    pieces := [Piece(b, [], 0, BlockBits(b, true, [], 0))];
    OneBlock(b, data);
    if |out| > |data| + 2 + StoredBlocks(|data|) * 5 {
      ghost var before := |out|;
      out, pieces := StoreAll(data);
      assert |out| < before;
      if data == [] { assert StoredBlocks(0) == 0; assert out == HEADER; }
      pad := [];
      assert BitsFrom(pieces, 0) + [] == BitsFrom(pieces, 0);
    }
  }

  /** `stbi_zlib_compress`. */
  method Compress(data: seq<byte>, quality: int) returns (out: seq<byte>, ghost pieces: seq<Piece>, ghost more: seq<bool>)
    ensures |out| <= |data| + 2 + StoredBlocks(|data|) * 5 + 4
    ensures |out| >= 6 && HEADER <= out
    ensures out[|out| - 4..] == [Sums(data).1 / 256, Sums(data).1 % 256, Sums(data).0 / 256, Sums(data).0 % 256]
    ensures data == [] ==> out[2..] == [0, 0, 0, 1]
    ensures data != [] ==> Streamed(out, pieces, data, more) && |more| >= 32
  {
    var q: nat := if quality < 5 then 5 else quality;
    ghost var pad;
    out, pieces, pad := CompressBody(data, q);
    var tail := Checksum(data);
    more := pad + StreamBits(tail);
    StreamLength(tail);
    if data != [] {
      StreamAppend(out[2..], tail);
      assert (out + tail)[2..] == out[2..] + tail;
      Assoc(BitsFrom(pieces, 0), pad, StreamBits(tail));
    }
    out := out + tail;
  }
}
