/** From matches and literals to items and their bits. */
module ZlibEmit {
  import opened Bits
  import opened HuffmanCode
  import opened Deflate
  import opened FixedCode
  import opened ZlibOut
  import opened Lz77

  // The writer's tables end with a sentinel one past the largest value.
  const LENGTHC: seq<nat> := LENGTH_BASE + [259]
  const DISTC: seq<nat> := DIST_BASE + [32768]

  /** Between two neighbouring bases there is room for the extra bits, and only for them. */
  lemma LengthRoom(j: nat, n: nat)
    requires j < LENGTH_SYMS && LENGTHC[j] <= n < LENGTHC[j + 1]
    ensures n - LENGTH_BASE[j] < Pow2(LENGTH_EXTRA[j]) && LENGTH_EXTRA[j] <= 5
  {
    if j < 16 { LengthRoomLow(j, n); } else { LengthRoomHigh(j, n); }
  }

  lemma LengthRoomLow(j: nat, n: nat)
    requires j < 16 && LENGTHC[j] <= n < LENGTHC[j + 1]
    ensures n - LENGTH_BASE[j] < Pow2(LENGTH_EXTRA[j]) && LENGTH_EXTRA[j] <= 5
  {
    assert Pow2(2) == 4 && Pow2(1) == 2 && Pow2(0) == 1;
  }

  lemma LengthRoomHigh(j: nat, n: nat)
    requires 16 <= j < LENGTH_SYMS && LENGTHC[j] <= n < LENGTHC[j + 1]
    ensures n - LENGTH_BASE[j] < Pow2(LENGTH_EXTRA[j]) && LENGTH_EXTRA[j] <= 5
  {
    assert Pow2(5) == 32 && Pow2(4) == 16 && Pow2(3) == 8 && Pow2(0) == 1;
  }

  lemma DistRoom(j: nat, d: nat)
    requires j < DIST_SYMS && DISTC[j] <= d < DISTC[j + 1]
    ensures d - DIST_BASE[j] < Pow2(DIST_EXTRA[j]) && DIST_EXTRA[j] <= 13
  {
    if j < 14 { DistRoomLow(j, d); } else { DistRoomHigh(j, d); }
  }

  lemma DistRoomLow(j: nat, d: nat)
    requires j < 14 && DISTC[j] <= d < DISTC[j + 1]
    ensures d - DIST_BASE[j] < Pow2(DIST_EXTRA[j]) && DIST_EXTRA[j] <= 5
  {
    assert Pow2(5) == 32 && Pow2(4) == 16 && Pow2(3) == 8 && Pow2(2) == 4 && Pow2(1) == 2 && Pow2(0) == 1;
  }

  lemma DistRoomHigh(j: nat, d: nat)
    requires 14 <= j < DIST_SYMS && DISTC[j] <= d < DISTC[j + 1]
    ensures d - DIST_BASE[j] < Pow2(DIST_EXTRA[j]) && DIST_EXTRA[j] <= 13
  {
    assert Pow2(13) == 8192 && Pow2(12) == 4096 && Pow2(11) == 2048 && Pow2(10) == 1024;
    assert Pow2(9) == 512 && Pow2(8) == 256 && Pow2(7) == 128 && Pow2(6) == 64;
  }

  /** The search loops for the two codes of a copy. */
  method LengthCode(n: nat) returns (j: nat)
    requires MIN_MATCH <= n <= MAX_MATCH
    ensures j < LENGTH_SYMS && LENGTHC[j] <= n < LENGTHC[j + 1]
  {
    j := 0;
    while n > LENGTHC[j + 1] - 1
      invariant j < LENGTH_SYMS && LENGTHC[j] <= n
      decreases LENGTH_SYMS - j
    {
      j := j + 1;
    }
  }

  method DistCode(d: nat) returns (j: nat)
    requires 1 <= d < WINDOW
    ensures j < DIST_SYMS && DISTC[j] <= d < DISTC[j + 1]
  {
    j := 0;
    while d > DISTC[j + 1] - 1
      invariant j < DIST_SYMS && DISTC[j] <= d
      decreases DIST_SYMS - j
    {
      j := j + 1;
    }
  }

  method AddExtra(z: ZOut, extra: nat, n: nat)
    requires z.Valid() && n <= 24 && extra < Pow2(n)
    modifies z
    ensures z.Valid() && z.Written() == old(z.Written()) + BitsOf(extra, n)
  {
    if n > 0 {
      z.Add(extra, n);
    } else {
      assert BitsOf(extra, 0) == [] && z.Written() + [] == z.Written();
    }
  }

  method AddDistance(z: ZOut, j: nat)
    requires z.Valid() && j < 32
    modifies z
    ensures z.Valid() && z.Written() == old(z.Written()) + CodeBits(FixedDistances(), j)
  {
    DistCodeOf(j);
    z.AddReversed(j, 5);
  }

  method EmitLength(z: ZOut, best: nat) returns (j: nat, extra: nat)
    requires z.Valid() && MIN_MATCH <= best <= MAX_MATCH
    modifies z
    ensures z.Valid() && j < LENGTH_SYMS && extra < Pow2(LENGTH_EXTRA[j]) && LENGTH_BASE[j] + extra == best
    ensures z.Written() == old(z.Written()) + CodeBits(FixedLengths(), FIRST_LENGTH + j) + BitsOf(extra, LENGTH_EXTRA[j])
  {
    j := LengthCode(best);
    LengthRoom(j, best);
    extra := best - LENGTHC[j];
    z.Huff(FIRST_LENGTH + j);
    AddExtra(z, extra, LENGTH_EXTRA[j]);
  }

  method EmitDistance(z: ZOut, d: nat) returns (j: nat, extra: nat)
    requires z.Valid() && 1 <= d < WINDOW
    modifies z
    ensures z.Valid() && j < DIST_SYMS && extra < Pow2(DIST_EXTRA[j]) && DIST_BASE[j] + extra == d
    ensures z.Written() == old(z.Written()) + CodeBits(FixedDistances(), j) + BitsOf(extra, DIST_EXTRA[j])
  {
    j := DistCode(d);
    DistRoom(j, d);
    extra := d - DISTC[j];
    AddDistance(z, j);
    AddExtra(z, extra, DIST_EXTRA[j]);
  }

  /** A copy of `best` bytes from `d` back, in fixed codes. */
  method EmitCopy(z: ZOut, best: nat, d: nat) returns (ghost it: Item)
    requires z.Valid() && MIN_MATCH <= best <= MAX_MATCH && 1 <= d < WINDOW
    modifies z
    ensures z.Valid() && it.Copy? && Spells(FixedLengths(), FixedDistances(), it)
    ensures CopyLength(it) == best && CopyDistance(it) == d
    ensures z.Written() == old(z.Written()) + ItemBits(FixedLengths(), FixedDistances(), it)
  {
    ghost var was := z.Written();
    var j, e := EmitLength(z, best);
    var k, f := EmitDistance(z, d);
    it := Copy(j, e, k, f);
    CopyBits(was, it);
  }

  lemma CopyBits(w: seq<bool>, it: Item)
    requires it.Copy? && ItemOk(it)
    ensures Spells(FixedLengths(), FixedDistances(), it)
    ensures w + CodeBits(FixedLengths(), FIRST_LENGTH + it.lsym) + BitsOf(it.lextra, LENGTH_EXTRA[it.lsym])
            + CodeBits(FixedDistances(), it.dsym) + BitsOf(it.dextra, DIST_EXTRA[it.dsym])
         == w + ItemBits(FixedLengths(), FixedDistances(), it)
  {
    AssocFour(w, CodeBits(FixedLengths(), FIRST_LENGTH + it.lsym), BitsOf(it.lextra, LENGTH_EXTRA[it.lsym]),
              CodeBits(FixedDistances(), it.dsym), BitsOf(it.dextra, DIST_EXTRA[it.dsym]));
  }

  lemma AssocFour(w: seq<bool>, a: seq<bool>, b: seq<bool>, c: seq<bool>, d: seq<bool>)
    ensures (((w + a) + b) + c) + d == w + (a + (b + (c + d)))
  {
    Assoc(w + a + b, c, d);
    Assoc(w + a, b, c + d);
    Assoc(w, a, b + (c + d));
  }

  // ---------------------------------------------------------------- what a match stands for

  /** Copying a match back reproduces the bytes it was found for. */
  lemma {:induction false} CopyIsMatch(data: seq<byte>, p: nat, i: nat, n: nat)
    requires p < i && i + n <= |data| && data[p..p + n] == data[i..i + n]
    ensures CopyBack(data[..i], n, i - p) == data[..i + n]
    decreases n
  {
    if n > 0 {
      assert data[p] == data[p..p + n][0] == data[i..i + n][0] == data[i];
      assert data[..i] + [data[i]] == data[..i + 1];
      assert data[p + 1..p + n] == data[p..p + n][1..] && data[i + 1..i + n] == data[i..i + n][1..];
      CopyIsMatch(data, p + 1, i + 1, n - 1);
    }
  }

  /** The items written after `start` expand to the first `i` bytes. */
  ghost predicate Progress(z: ZOut, start: seq<bool>, items: seq<Item>, data: seq<byte>, i: nat)
    reads z
  {
    && z.Valid() && i <= |data|
    && SpellsAll(FixedLengths(), FixedDistances(), items)
    && Playable(items, []) && Play(items, []) == data[..i]
    && z.Written() == start + ItemsBits(FixedLengths(), FixedDistances(), items)
  }

  lemma ProgressStep(start: seq<bool>, was: seq<bool>, now: seq<bool>, items: seq<Item>, it: Item, data: seq<byte>, i: nat, n: nat)
    requires SpellsAll(FixedLengths(), FixedDistances(), items) && Spells(FixedLengths(), FixedDistances(), it)
    requires i + n <= |data| && Playable(items, []) && Play(items, []) == data[..i]
    requires Applicable(it, data[..i]) && Apply(it, data[..i]) == data[..i + n]
    requires was == start + ItemsBits(FixedLengths(), FixedDistances(), items)
    requires now == was + ItemBits(FixedLengths(), FixedDistances(), it)
    ensures SpellsAll(FixedLengths(), FixedDistances(), items + [it])
    ensures Playable(items + [it], []) && Play(items + [it], []) == data[..i + n]
    ensures now == start + ItemsBits(FixedLengths(), FixedDistances(), items + [it])
  {
    PlayAppend(items, it, []);
    BitsAppend(FixedLengths(), FixedDistances(), items, it);
    Assoc(start, ItemsBits(FixedLengths(), FixedDistances(), items), ItemBits(FixedLengths(), FixedDistances(), it));
  }

  lemma LiteralBits(b: byte)
    ensures Spells(FixedLengths(), FixedDistances(), Literal(b))
    ensures ItemBits(FixedLengths(), FixedDistances(), Literal(b)) == CodeBits(FixedLengths(), b)
  {
    assert TailBits(FixedDistances(), Literal(b)) == [];
  }

  lemma LiteralApplies(data: seq<byte>, i: nat)
    requires i < |data|
    ensures Applicable(Literal(data[i]), data[..i]) && Apply(Literal(data[i]), data[..i]) == data[..i + 1]
  {
    assert data[..i] + [data[i]] == data[..i + 1];
  }

  method WriteLiteral(z: ZOut, data: seq<byte>, i: nat, ghost start: seq<bool>, ghost items: seq<Item>)
    returns (ghost more: seq<Item>)
    requires Progress(z, start, items, data, i) && i < |data|
    modifies z
    ensures Progress(z, start, more, data, i + 1)
  {
    ghost var was := z.Written();
    z.HuffLiteral(data[i]);
    ghost var it := Literal(data[i]);
    LiteralBits(data[i]);
    LiteralApplies(data, i);
    ProgressStep(start, was, z.Written(), items, it, data, i, 1);
    more := items + [it];
  }

  method WriteCopy(z: ZOut, data: seq<byte>, i: nat, best: nat, p: nat, ghost start: seq<bool>, ghost items: seq<Item>)
    returns (ghost more: seq<Item>)
    requires Progress(z, start, items, data, i) && IsMatch(data, p, i, best)
    modifies z
    ensures Progress(z, start, more, data, i + best)
  {
    ghost var was := z.Written();
    ghost var it := EmitCopy(z, best, i - p);
    CopyIsMatch(data, p, i, best);
    ProgressStep(start, was, z.Written(), items, it, data, i, best);
    more := items + [it];
  }
}
