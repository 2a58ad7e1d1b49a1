/** The mask-and-shift network of `stbi__bitreverse16`, and what it computes. */
module BitReversal {
  import opened Bits
  import opened HuffmanCode

  /** One line of the network: in each of the low `groups` pairs of neighbouring
      `w`-bit fields the two fields change places. */
  function SwapFields(n: nat, w: nat, groups: nat): nat
    decreases groups
  {
    if groups == 0 then 0
    else
      Low(Shr(n, w), w)
      + Shl(Low(n, w) + Shl(SwapFields(Shr(Shr(n, w), w), w, groups - 1), w), w)
  }

  /** The masks of the first line also drop everything above bit 15. */
  function BitReverse16(n: nat): nat {
    SwapFields(SwapFields(SwapFields(SwapFields(Low(n, 16), 1, 8), 2, 4), 4, 2), 8, 1)
  }

  /** `stbi__bit_reverse`: reverse sixteen bits, then drop the low ones. */
  function BitReverse(v: nat, bits: nat): nat
    requires bits <= 16
  {
    Shr(BitReverse16(v), 16 - bits)
  }

  /** The low `groups` fields of `w` bits, each reversed in place. */
  ghost function FieldsReversed(n: nat, w: nat, groups: nat): nat
    decreases groups
  {
    if groups == 0 then 0
    else Reverse(n, w) + Shl(FieldsReversed(Shr(n, w), w, groups - 1), w)
  }

  /** Swapping the halves of fields already reversed reverses fields twice as wide. */
  lemma {:induction false} SwapDoubles(n: nat, w: nat, groups: nat)
    ensures SwapFields(FieldsReversed(n, w, 2 * groups), w, groups) == FieldsReversed(n, 2 * w, groups)
    decreases groups
  {
    if groups > 0 {
      var n1, n2 := Shr(n, w), Shr(Shr(n, w), w);
      var c := FieldsReversed(n2, w, 2 * (groups - 1));
      var b := FieldsReversed(n1, w, 2 * groups - 1);
      assert b == Reverse(n1, w) + Shl(c, w);
      ShrLowJoin(Reverse(n, w), b, w);
      ShrLowJoin(Reverse(n1, w), c, w);
      SwapDoubles(n2, w, groups - 1);
      ShrAgain(n, w, w);
      SwapDoublesSum(n, w, FieldsReversed(n2, 2 * w, groups - 1));
      assert w + w == 2 * w;
    }
  }

  lemma SwapDoublesSum(n: nat, w: nat, d: nat)
    ensures Reverse(n, 2 * w) + Shl(d, 2 * w) == Reverse(Shr(n, w), w) + Shl(Reverse(n, w) + Shl(d, w), w)
  {
    ReverseSplit(n, w, w);
    ShlAgain(d, w, w);
    ShlSum(Reverse(n, w), Shl(d, w), w);
    assert w + w == 2 * w;
  }

  lemma {:induction false} SingleBits(n: nat, groups: nat)
    ensures FieldsReversed(n, 1, groups) == Low(n, groups)
  {
    if groups > 0 {
      assert Shr(n, 1) == Shr(n / 2, 0) == n / 2;
      SingleBits(n / 2, groups - 1);
      var rest := FieldsReversed(n / 2, 1, groups - 1);
      assert Shl(rest, 1) == 2 * Shl(rest, 0);
      assert Reverse(n, 1) == (if n % 2 == 1 then Pow2(0) else 0) + Reverse(n / 2, 0);
    }
  }

  lemma OneField(n: nat, w: nat)
    ensures FieldsReversed(n, w, 1) == Reverse(n, w)
  {
    assert FieldsReversed(Shr(n, w), w, 0) == 0;
    ShlZero(w);
  }

  /** The network reverses the low sixteen bits of its argument. */
  lemma BitReverse16Correct(n: nat)
    ensures BitReverse16(n) == Reverse(n, 16)
  {
    SingleBits(n, 16);
    SwapDoubles(n, 1, 8);
    SwapDoubles(n, 2, 4);
    SwapDoubles(n, 4, 2);
    SwapDoubles(n, 8, 1);
    OneField(n, 16);
  }

  /** Any width: the shift keeps exactly the reversed low bits. */
  lemma BitReverseCorrect(v: nat, bits: nat)
    requires bits <= 16
    ensures BitReverse(v, bits) == Reverse(v, bits)
  {
    BitReverse16Correct(v);
    ReverseShr(v, bits, 16 - bits);
  }
}
