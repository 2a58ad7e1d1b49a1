/** The fixed code of RFC 1951 section 3.2.6 is a canonical code, and these are its words. */
module FixedCode {
  import opened Bits
  import opened HuffmanCode
  import opened Deflate

  function Clamp(n: int, hi: nat): nat {
    if n < 0 then 0 else if n > hi then hi else n
  }

  lemma {:induction false} FixedCounts(n: nat, s: nat)
    requires n <= 288
    ensures Count(FixedLengths(), s, n)
         == if s == 8 then Clamp(n, 144) + Clamp(n - 280, 8)
            else if s == 9 then Clamp(n - 144, 112)
            else if s == 7 then Clamp(n - 256, 24)
            else 0
  {
    if n > 0 { FixedCounts(n - 1, s); }
  }

  lemma {:induction false} FixedFirstShort(s: nat)
    requires 1 <= s <= 7
    ensures FirstCode(FixedLengths(), s) == 0
  {
    if s > 1 {
      FixedFirstShort(s - 1);
      FixedCounts(288, s - 1);
    }
  }

  lemma FixedFirst()
    ensures FirstCode(FixedLengths(), 7) == 0
    ensures FirstCode(FixedLengths(), 8) == 0x30
    ensures FirstCode(FixedLengths(), 9) == 0x190
  {
    FixedFirstShort(7);
    FixedCounts(288, 7);
    FixedCounts(288, 8);
  }

  /** The four ranges of the table in section 3.2.6. */
  lemma FixedCodeOf(n: nat)
    requires n < 288
    ensures CodeOf(FixedLengths(), n)
         == if n <= 143 then 0x30 + n
            else if n <= 255 then 0x190 + n - 144
            else if n <= 279 then n - 256
            else 0xc0 + n - 280
  {
    FixedFirst();
    FixedCounts(n, FixedLengths()[n]);
  }

  /** The code word of symbol `n`, spelled from the same table. */
  lemma FixedWord(n: nat, code: nat, len: nat)
    requires n < 288
    requires len == if n <= 143 then 8 else if n <= 255 then 9 else if n <= 279 then 7 else 8
    requires code == if n <= 143 then 0x30 + n
                     else if n <= 255 then 0x190 + n - 144
                     else if n <= 279 then n - 256
                     else 0xc0 + n - 280
    ensures CodeBits(FixedLengths(), n) == BitsOf(Reverse(code, len), len)
  {
    FixedCodeOf(n);
    assert FixedLengths()[n] == len;
  }

  lemma FixedAcceptable()
    ensures Acceptable(FixedLengths())
  {
    var l := FixedLengths();
    assert Pow2(7) == 128 && Pow2(8) == 256 && Pow2(9) == 512;
    FixedFirst();
    forall s: nat | 1 <= s <= 15 ensures Fits(l, s) { FixedCounts(288, s); }
  }

  lemma {:induction false} DistCounts(n: nat, s: nat)
    requires n <= 32
    ensures Count(FixedDistances(), s, n) == if s == 5 then n else 0
  {
    if n > 0 { DistCounts(n - 1, s); }
  }

  lemma {:induction false} DistFirst(s: nat)
    requires 1 <= s <= 5
    ensures FirstCode(FixedDistances(), s) == 0
  {
    hide Count;
    if s > 1 {
      DistFirst(s - 1);
      DistCounts(32, s - 1);
      assert |FixedDistances()| == 32;
    }
  }

  /** Distance codes are their own five-bit numbers. */
  lemma DistCodeOf(n: nat)
    requires n < 32
    ensures CodeOf(FixedDistances(), n) == n
  {
    DistFirst(5);
    DistCounts(n, 5);
  }

  lemma DistAcceptable()
    ensures Acceptable(FixedDistances())
  {
    var l := FixedDistances();
    assert Pow2(5) == 32;
    DistFirst(5);
    forall s: nat | 1 <= s <= 15 ensures Fits(l, s) { DistCounts(32, s); }
  }
}
