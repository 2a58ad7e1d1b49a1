/** The writer's bit buffer (`stbiw__zlib_add`, `stbiw__zlib_flushf`) and the fixed
    code words it emits. */
module ZlibOut {
  import opened Bits
  import opened HuffmanCode
  import opened Deflate
  import opened FixedCode

  class ZOut {
    var out: seq<byte>
    var bitbuf: nat
    var bitcount: nat

    constructor ()
      ensures Valid() && out == [] && bitcount == 0
    {
      out, bitbuf, bitcount := [], 0, 0;
    }

    /** Less than a byte waits in the buffer, and the buffer holds no more than it counts. */
    ghost predicate Valid()
      reads this
    {
      bitcount < 8 && bitbuf < Pow2(bitcount)
    }

    /** Every bit written so far. */
    ghost function Written(): seq<bool>
      reads this
    {
      StreamBits(out) + BitsOf(bitbuf, bitcount)
    }

    method Flush()
      requires bitbuf < Pow2(bitcount)
      modifies this
      ensures Valid() && Written() == old(Written())
    {
      while bitcount >= 8
        invariant bitbuf < Pow2(bitcount) && Written() == old(Written())
      {
        FlushByte();
      }
    }

    method FlushByte()
      requires bitbuf < Pow2(bitcount) && bitcount >= 8
      modifies this
      ensures bitcount == old(bitcount) - 8
      ensures bitbuf < Pow2(bitcount) && Written() == old(Written())
    {
      ByteShift(bitbuf, bitcount);
      var b := bitbuf % 256;
      StreamAppend(out, [b]);
      StreamOne(b);
      Assoc(StreamBits(out), BitsOf(b, 8), BitsOf(bitbuf / 256, bitcount - 8));
      out := out + [b];
      bitbuf := bitbuf / 256;
      bitcount := bitcount - 8;
    }

    /** `stbiw__zlib_add`: the code is or-ed in above the waiting bits. */
    method Add(code: nat, n: nat)
      requires Valid() && n <= 24 && code < Pow2(n)
      modifies this
      ensures Valid() && Written() == old(Written()) + BitsOf(code, n)
    {
      JoinBound(bitbuf, code, bitcount, n);
      BitsJoin(bitbuf, code, bitcount, n);
      Assoc(StreamBits(out), BitsOf(bitbuf, bitcount), BitsOf(code, n));
      bitbuf := bitbuf + Shl(code, bitcount);
      bitcount := bitcount + n;
      Flush();
    }

    /** `stbiw__zlib_huffa`. */
    method AddReversed(code: nat, n: nat)
      requires Valid() && n <= 24
      modifies this
      ensures Valid() && Written() == old(Written()) + BitsOf(Reverse(code, n), n)
    {
      var r := BitRev(code, n);
      Add(r, n);
    }

    /** `stbiw__zlib_huff`: the fixed code word of symbol `n`. */
    method Huff(n: nat)
      requires Valid() && n < 288
      modifies this
      ensures Valid() && Written() == old(Written()) + CodeBits(FixedLengths(), n)
    {
      if n <= 143 {
        FixedWord(n, 0x30 + n, 8);
        AddReversed(0x30 + n, 8);
      } else if n <= 255 {
        FixedWord(n, 0x190 + n - 144, 9);
        AddReversed(0x190 + n - 144, 9);
      } else if n <= 279 {
        FixedWord(n, n - 256, 7);
        AddReversed(n - 256, 7);
      } else {
        FixedWord(n, 0xc0 + n - 280, 8);
        AddReversed(0xc0 + n - 280, 8);
      }
    }

    /** `stbiw__zlib_huffb`, for literal bytes. */
    method HuffLiteral(n: byte)
      requires Valid()
      modifies this
      ensures Valid() && Written() == old(Written()) + CodeBits(FixedLengths(), n)
    {
      var code: nat := n;
      if n <= 143 {
        FixedWord(n, 0x30 + code, 8);
        AddReversed(0x30 + code, 8);
      } else {
        FixedWord(n, 0x190 + code - 144, 9);
        AddReversed(0x190 + code - 144, 9);
      }
    }

    /** Zero bits up to the next byte boundary. */
    method Pad() returns (ghost pad: seq<bool>)
      requires Valid()
      modifies this
      ensures Valid() && bitcount == 0 && Written() == old(Written()) + pad
    {
      pad := [];
      while bitcount != 0
        invariant Valid() && Written() == old(Written()) + pad
        decreases if bitcount == 0 then 0 else 8 - bitcount
      {
        ghost var was := Written();
        PadBit();
        Assoc(old(Written()), pad, BitsOf(0, 1));
        pad := pad + BitsOf(0, 1);
      }
    }

    method PadBit()
      requires Valid() && bitcount != 0
      modifies this
      ensures Valid() && Written() == old(Written()) + BitsOf(0, 1)
      ensures bitcount == if old(bitcount) == 7 then 0 else old(bitcount) + 1
    {
      JoinBound(bitbuf, 0, bitcount, 1);
      BitsJoin(bitbuf, 0, bitcount, 1);
      Assoc(StreamBits(out), BitsOf(bitbuf, bitcount), BitsOf(0, 1));
      bitbuf := bitbuf + Shl(0, bitcount);
      bitcount := bitcount + 1;
      if bitcount >= 8 { FlushByte(); }
    }
  }

  lemma ByteShift(v: nat, n: nat)
    requires n >= 8 && v < Pow2(n)
    ensures BitsOf(v, n) == BitsOf(v % 256, 8) + BitsOf(v / 256, n - 8)
    ensures v / 256 < Pow2(n - 8)
  {
    ByteSplit(v);
    BitsSplit(v, 8, n - 8);
    BitsOfLow(v, 8);
    ShiftBound(v, 8, n - 8);
  }

  /** `stbiw__zlib_bitrev`. */
  method BitRev(code: nat, codebits: nat) returns (res: nat)
    ensures res == Reverse(code, codebits)
  {
    res := 0;
    var c: nat := code;
    var left: nat := codebits;
    ShlZero(codebits);
    while left > 0
      invariant left <= codebits
      invariant Reverse(code, codebits) == Shl(res, left) + Reverse(c, left)
    {
      BitRevStep(res, c, left);
      res := 2 * res + c % 2;
      c := c / 2;
      left := left - 1;
    }
  }

  lemma BitRevStep(res: nat, c: nat, left: nat)
    requires left > 0
    ensures Shl(res, left) + Reverse(c, left) == Shl(2 * res + c % 2, left - 1) + Reverse(c / 2, left - 1)
  {
    var bit := c % 2;
    ShlSum(2 * res, bit, left - 1);
    ShlAgain(res, 1, left - 1);
    assert Shl(res, 1) == 2 * Shl(res, 0);
    if bit == 1 { ShlPow2(left - 1); } else { ShlZero(left - 1); }
  }
}
