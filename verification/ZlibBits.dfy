/** The bit-level half of `stbi__zbuf`: refilling the code buffer, taking fixed-width
    fields and decoding one Huffman symbol. */
module ZlibBits {
  import opened Bits
  import opened HuffmanCode
  import opened BitReversal
  import opened HuffmanTable

  const UINT_MAX: nat := 0xffff_ffff

  function ZeroPad(n: nat): (s: seq<bool>)
    ensures |s| == n && forall i :: 0 <= i < n ==> !s[i]
  {
    seq(n, _ => false)
  }

  /** `bits` were taken off the front of `was`, and `now` is left: whole zero bytes may have come in
      behind the end. */
  ghost predicate Took(was: seq<bool>, bits: seq<bool>, now: seq<bool>) {
    exists n: nat :: n % 8 == 0 && was + ZeroPad(n) == bits + now
  }

  lemma TookExactly(was: seq<bool>, bits: seq<bool>, now: seq<bool>)
    requires was == bits + now
    ensures Took(was, bits, now)
  {
    assert was + ZeroPad(0) == was;
  }

  lemma TookNothing(was: seq<bool>)
    ensures Took(was, [], was)
  {
    TookExactly(was, [], was);
  }

  lemma TookThen(a: seq<bool>, x: seq<bool>, b: seq<bool>, y: seq<bool>, c: seq<bool>)
    requires Took(a, x, b) && Took(b, y, c)
    ensures Took(a, x + y, c)
  {
    var n: nat :| n % 8 == 0 && a + ZeroPad(n) == x + b;
    var m: nat :| m % 8 == 0 && b + ZeroPad(m) == y + c;
    assert ZeroPad(n + m) == ZeroPad(n) + ZeroPad(m);
    Assoc(a, ZeroPad(n), ZeroPad(m));
    Assoc(x, b, ZeroPad(m));
    Assoc(x, y, c);
  }

  lemma TookPadding(was: seq<bool>, n: nat)
    requires n % 8 == 0
    ensures Took(was, [], was + ZeroPad(n))
  {
    assert [] + (was + ZeroPad(n)) == was + ZeroPad(n);
  }

  /** A byte boundary stays one. */
  lemma TookAligned(was: seq<bool>, bits: seq<bool>, now: seq<bool>, offset: nat)
    requires Took(was, bits, now) && (offset + |was|) % 8 == 0
    ensures (offset + |bits| + |now|) % 8 == 0
  {
    var n: nat :| n % 8 == 0 && was + ZeroPad(n) == bits + now;
    assert |was| + n == |bits| + |now|;
  }

  lemma {:induction false} ZeroBits(n: nat)
    ensures BitsOf(0, n) == ZeroPad(n)
  {
    if n > 0 {
      ZeroBits(n - 1);
      assert ZeroPad(n) == [false] + ZeroPad(n - 1);
    }
  }

  /** How far a buffer of this size goes: a fixed one no further, one that may grow by doubling as
      long as the size fits an unsigned integer. */
  function Room(limit: nat, mayGrow: bool): nat
    decreases UINT_MAX - limit
  {
    if mayGrow && 1 <= limit <= UINT_MAX / 2 then Room(2 * limit, mayGrow) else limit
  }

  class ZBuf {
    const zbuffer: seq<byte>
    var pos: nat
    var numBits: nat
    var codeBuffer: nat
    var hitEofOnce: bool
    /** The output so far, the room set aside for it, and whether that may grow. */
    var zout: seq<byte>
    var limit: nat
    const expandable: bool

    constructor (bytes: seq<byte>, size: nat, mayGrow: bool)
      requires 1 <= size <= UINT_MAX
      ensures zbuffer == bytes && pos == 0 && zout == [] && expandable == mayGrow
      ensures numBits == 0 && codeBuffer == 0 && !hitEofOnce && limit == size
      ensures Valid()
    {
      zbuffer, expandable := bytes, mayGrow;
      pos, numBits, codeBuffer, hitEofOnce, zout, limit := 0, 0, 0, false, [], size;
    }

    ghost predicate Valid()
      reads this
    {
      pos <= |zbuffer| && numBits <= 32 && codeBuffer < Pow2(numBits)
      && |zout| <= limit && 1 <= limit <= UINT_MAX
    }

    /** Everything the reader has not consumed yet. */
    ghost function Rest(): seq<bool>
      requires Valid()
      reads this
    {
      BitsOf(codeBuffer, numBits) + StreamBits(zbuffer[pos..])
    }

    /** Bits up to the last one that can be nonzero.  Reading never increases it, and past
        the end of the input only zeros are left to read. */
    ghost function Ahead(): nat
      requires Valid()
      reads this
    {
      if pos < |zbuffer| then 8 * (|zbuffer| - pos) + numBits else BitLength(codeBuffer)
    }

    /** The most output the buffer can be made to hold. */
    ghost function Capacity(): nat
      reads this
    {
      Room(limit, expandable)
    }

    predicate AtEof()
      reads this
    {
      pos >= |zbuffer|
    }

    /** Or `width` new bits in above the buffered ones. */
    method Absorb(b: nat, width: nat)
      requires Valid() && numBits + width <= 32 && b < Pow2(width)
      modifies this`numBits, this`codeBuffer
      ensures Valid() && numBits == old(numBits) + width
      ensures BitsOf(codeBuffer, numBits) == BitsOf(old(codeBuffer), old(numBits)) + BitsOf(b, width)
      ensures b == 0 ==> codeBuffer == old(codeBuffer)
    {
      JoinBound(codeBuffer, b, numBits, width);
      BitsJoin(codeBuffer, b, numBits, width);
      ShlZero(numBits);
      codeBuffer := codeBuffer + Shl(b, numBits);
      numBits := numBits + width;
    }

    /** One round of `stbi__fill_bits`: a byte, or zero past the end, moves above the
        buffered bits.  The buffer never holds more than it counts, so the guard
        against that never fires. */
    method FillByte()
      requires Valid() && numBits <= 24
      modifies this`pos, this`numBits, this`codeBuffer
      ensures Valid() && numBits == old(numBits) + 8
      ensures Ahead() <= old(Ahead())
      ensures Rest() == old(Rest()) + (if old(AtEof()) then BitsOf(0, 8) else [])
    {
      ghost var had, tail := BitsOf(codeBuffer, numBits), StreamBits(zbuffer[pos..]);
      if AtEof() {
        assert zbuffer[pos..] == [];
        Absorb(0, 8);
        assert had + BitsOf(0, 8) + [] == had + [] + BitsOf(0, 8);
      } else {
        StreamNext(zbuffer, pos);
        var b := zbuffer[pos];
        pos := pos + 1;
        assert b < Pow2(8);
        Absorb(b, 8);
        Assoc(had, BitsOf(b, 8), StreamBits(zbuffer[pos..]));
        BitLengthBound(codeBuffer, numBits);
      }
    }

    /** `stbi__fill_bits`: past the end of the input the stream reads as zero bits. */
    method FillBits()
      requires Valid() && numBits <= 24
      modifies this`pos, this`numBits, this`codeBuffer
      ensures Valid() && numBits > 24
      ensures Ahead() <= old(Ahead())
      ensures old(Rest()) <= Rest()
      ensures |old(Rest())| >= 32 ==> Rest() == old(Rest())
      ensures Took(old(Rest()), [], Rest())
    {
      hide Took;
      ghost var was := Rest();
      TookNothing(was);
      while numBits <= 24
        invariant Valid() && was <= Rest() && Ahead() <= old(Ahead())
        invariant |was| >= 32 ==> Rest() == was
        invariant Took(was, [], Rest())
        decreases 32 - numBits
      {
        StreamLength(zbuffer[pos..]);
        ghost var before := Rest();
        FillByte();
        ByteTook(before, Rest());
        TookThen(was, [], before, [], Rest());
      }
    }

    lemma ByteTook(was: seq<bool>, now: seq<bool>)
      requires now == was + BitsOf(0, 8) || now == was + []
      ensures Took(was, [], now)
    {
      ZeroBits(8);
      if now == was + [] { TookNothing(was); } else { TookPadding(was, 8); }
    }

    /** Drop `n` buffered bits. */
    method Consume(n: nat)
      requires Valid() && n <= numBits
      modifies this`numBits, this`codeBuffer
      ensures Valid() && numBits == old(numBits) - n && codeBuffer == Shr(old(codeBuffer), n)
      ensures old(Rest()) == BitsOf(old(codeBuffer), n) + Rest()
      ensures Ahead() == if old(Ahead()) <= n then 0 else old(Ahead()) - n
    {
      BitLengthShr(codeBuffer, n);
      BitsSplit(codeBuffer, n, numBits - n);
      ShiftBound(codeBuffer, n, numBits - n);
      Assoc(BitsOf(codeBuffer, n), BitsOf(Shr(codeBuffer, n), numBits - n), StreamBits(zbuffer[pos..]));
      codeBuffer := Shr(codeBuffer, n);
      numBits := numBits - n;
    }

    /** `stbi__zreceive`: the next `n` bits as a number. */
    method Receive(n: nat) returns (k: nat)
      requires Valid() && n <= 24
      modifies this`pos, this`numBits, this`codeBuffer
      ensures Valid() && k < Pow2(n)
      ensures Ahead() <= (if old(Ahead()) <= n then 0 else old(Ahead()) - n)
      ensures old(Ahead()) == 0 ==> k == 0
      ensures n <= old(numBits) ==> numBits == old(numBits) - n
      ensures n > old(numBits) ==> numBits + n > 24
      ensures |old(Rest())| >= 32 || n <= old(numBits) ==> old(Rest()) == BitsOf(k, n) + Rest()
      ensures Took(old(Rest()), BitsOf(k, n), Rest())
    {
      hide Took;
      ghost var was := Rest();
      TookNothing(was);
      if numBits < n { FillBits(); }
      k := Low(codeBuffer, n);
      LowZero(n);
      assert codeBuffer > 0 || k == 0;
      BitsOfLow(codeBuffer, n);
      ghost var filled := Rest();
      Consume(n);
      TookExactly(filled, BitsOf(k, n), Rest());
      TookThen(was, [], filled, BitsOf(k, n), Rest());
      assert [] + BitsOf(k, n) == BitsOf(k, n);
    }

    /** Sixteen zero bits behind the end of the input. */
    method Pad()
      requires Valid() && numBits < 16 && AtEof()
      modifies this`numBits
      ensures Valid() && numBits == old(numBits) + 16 && Ahead() == old(Ahead())
      ensures Took(old(Rest()), [], Rest())
    {
      ghost var was := Rest();
      PaddingFits(codeBuffer, numBits, 16);
      BitsJoin(codeBuffer, 0, numBits, 16);
      ShlZero(numBits);
      ZeroBits(16);
      numBits := numBits + 16;
      assert StreamBits(zbuffer[pos..]) == [];
      assert Rest() == was + ZeroPad(16);
      TookPadding(was, 16);
    }

    /** `stbi__zhuffman_decode`.  On a stream with at least 32 bits left the end-of-input
        padding stays out of play and the result is exactly the next code word. */
    method Decode(t: ZHuffman, ghost l: Lengths) returns (sym: int)
      requires Valid() && t.Describes(l)
      modifies this`pos, this`numBits, this`codeBuffer, this`hitEofOnce
      ensures Valid() && -1 <= sym < |l| && Ahead() <= old(Ahead())
      ensures |old(Rest())| >= 32 ==> hitEofOnce == old(hitEofOnce)
      ensures |old(Rest())| >= 32 && sym >= 0 ==> Used(l, sym) && old(Rest()) == CodeBits(l, sym) + Rest()
      ensures |old(Rest())| >= 32 && sym < 0 ==> forall i: nat :: Used(l, i) ==> !(CodeBits(l, i) <= old(Rest()))
      ensures sym >= 0 ==> Used(l, sym) && Took(old(Rest()), CodeBits(l, sym), Rest())
    {
      hide Took;
      ghost var was := Rest();
      TookNothing(was);
      StreamLength(zbuffer[pos..]);
      if numBits < 16 {
        if AtEof() {
          if hitEofOnce { return -1; }
          hitEofOnce := true;
          Pad();
        } else {
          FillBits();
        }
      }
      ghost var filled := Rest();
      sym := DecodeBuffered(t, l);
      if sym >= 0 {
        TookExactly(filled, CodeBits(l, sym), Rest());
        TookThen(was, [], filled, CodeBits(l, sym), Rest());
        assert [] + CodeBits(l, sym) == CodeBits(l, sym);
      }
      if |was| >= 32 && sym < 0 {
        forall i: nat | Used(l, i) && CodeBits(l, i) <= was ensures false {
          BitsSplit(codeBuffer, l[i], numBits - l[i]);
          assert CodeBits(l, i) == was[..l[i]] == BitsOf(codeBuffer, l[i]);
          CodeBitsMatch(l, codeBuffer, i);
        }
      }
    }

    /** The fast table, then the slow path: with sixteen buffered bits the result is the
        one symbol whose code the buffer starts with, and -1 exactly when there is none. */
    method DecodeBuffered(t: ZHuffman, ghost l: Lengths) returns (sym: int)
      requires Valid() && numBits >= 16 && t.Describes(l)
      modifies this`numBits, this`codeBuffer
      ensures Valid() && -1 <= sym && Ahead() <= old(Ahead())
      ensures sym >= 0 ==> Matches(l, old(codeBuffer), sym) && old(Rest()) == CodeBits(l, sym) + Rest()
      ensures sym < 0 ==> codeBuffer == old(codeBuffer) && numBits == old(numBits)
      ensures sym < 0 ==> forall i: nat :: !Matches(l, codeBuffer, i)
    {
      var x := Low(codeBuffer, FAST_BITS);
      var b := t.fast[x];
      assert FastEntry(l, b, x, |l|);
      if b != 0 {
        sym := b % 512;
        ReverseOfLow(codeBuffer, l[sym], FAST_BITS);
        MatchCodeBits(l, codeBuffer, sym);
        Consume(b / 512);
      } else {
        forall i: nat | Used(l, i) && l[i] <= FAST_BITS ensures !Matches(l, codeBuffer, i) {
          ReverseOfLow(codeBuffer, l[i], FAST_BITS);
          assert !Matches(l, x, i);
        }
        sym := DecodeSlow(t, l);
      }
    }

    /** `stbi__zhuffman_decode_slowpath`: only reached when no short code matches.  The
        slot it computes always holds a symbol of the right length. */
    method DecodeSlow(t: ZHuffman, ghost l: Lengths) returns (sym: int)
      requires Valid() && numBits >= 16 && t.Describes(l)
      requires forall i: nat :: Used(l, i) && l[i] <= FAST_BITS ==> !Matches(l, codeBuffer, i)
      modifies this`numBits, this`codeBuffer
      ensures Valid() && -1 <= sym && Ahead() <= old(Ahead())
      ensures sym >= 0 ==> Matches(l, old(codeBuffer), sym) && old(Rest()) == CodeBits(l, sym) + Rest()
      ensures sym < 0 ==> codeBuffer == old(codeBuffer) && numBits == old(numBits)
      ensures sym < 0 ==> forall i: nat :: !Matches(l, codeBuffer, i)
    {
      var k := BitReverse(codeBuffer, 16);
      BitReverseCorrect(codeBuffer, 16);
      if k < End(l, FAST_BITS) { ghost var i := BelowEndMatches(l, codeBuffer, FAST_BITS); }
      var s := FindLength(t, l, k);
      if s >= 16 {
        forall i: nat | Matches(l, codeBuffer, i) ensures false {
          MatchInterval(l, codeBuffer, i);
          EndMono(l, l[i], 15);
        }
        return -1;
      }
      ghost var i := IntervalMatch(l, codeBuffer, s);
      var b := Shr(k, 16 - s) - t.firstcode[s] + t.firstsymbol[s];
      SlotBound(l, i);
      assert b == Slot(l, i) && SlotHolds(l, t.size, t.value, i);
      if b >= NSYMS { return -1; }
      if t.size[b] != s { return -1; }
      MatchCodeBits(l, codeBuffer, i);
      sym := t.value[b];
      Consume(s);
    }
  }

  lemma PaddingFits(v: nat, n: nat, m: nat)
    requires v < Pow2(n)
    ensures v < Pow2(n + m)
  {
    Pow2Mono(n, n + m);
  }

  /** The first length past the fast table whose limit lies above `k`. */
  method FindLength(t: ZHuffman, ghost l: Lengths, k: nat) returns (s: nat)
    requires t.Describes(l) && End(l, FAST_BITS) <= k < 0x10000
    ensures FAST_BITS < s <= 16
    ensures End(l, s - 1) <= k
    ensures s < 16 ==> k < End(l, s)
  {
    s := FAST_BITS + 1;
    while k >= t.maxcode[s]
      invariant FAST_BITS < s <= 16 && End(l, s - 1) <= k
      decreases 16 - s
    {
      s := s + 1;
    }
  }
}
