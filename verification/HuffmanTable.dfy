/** `stbi__zhuffman`: the decoding tables, how they are built and how they are read. */
module HuffmanTable {
  import opened Bits
  import opened HuffmanCode
  import opened BitReversal

  const FAST_BITS := 9
  const FAST_SIZE := 512
  const NSYMS := 288

  /** What a fast-table cell must hold once the first `n` symbols are entered:
      zero means that no short code starts the buffer `x`. */
  predicate FastEntry(l: Lengths, e: nat, x: nat, n: nat) {
    if e == 0 then forall i :: 0 <= i < n && Used(l, i) && l[i] <= FAST_BITS ==> !Matches(l, x, i)
    else e % 512 < n && Matches(l, x, e % 512) && l[e % 512] == e / 512 <= FAST_BITS
  }

  ghost predicate FastDescribes(l: Lengths, fast: array<nat>, n: nat)
    reads fast
  {
    fast.Length == FAST_SIZE && forall x :: 0 <= x < FAST_SIZE ==> FastEntry(l, fast[x], x, n)
  }

  ghost predicate SlotsDescribe(l: Lengths, size: array<nat>, value: array<nat>, n: nat)
    requires |l| <= NSYMS && n <= |l|
    reads size, value
  {
    size.Length == value.Length == NSYMS
    && forall i :: 0 <= i < n && Used(l, i) ==> SlotHolds(l, size, value, i)
  }

  ghost predicate SlotHolds(l: Lengths, size: array<nat>, value: array<nat>, i: nat)
    requires |l| <= NSYMS && Used(l, i) && size.Length == value.Length == NSYMS
    reads size, value
  {
    SlotBound(l, i);
    size[Slot(l, i)] == l[i] && value[Slot(l, i)] == i
  }

  ghost predicate FirstCodes(l: Lengths, next: array<nat>, n: nat)
    requires n <= 16 && next.Length == 16
    reads next
  {
    forall s :: 1 <= s < n ==> next[s] == FirstCode(l, s)
  }

  ghost predicate FirstSlots(l: Lengths, firstsymbol: array<nat>, n: nat)
    requires n <= 16 && firstsymbol.Length == 16
    reads firstsymbol
  {
    forall s :: 1 <= s < n ==> firstsymbol[s] == Shorter(l, s, |l|)
  }

  ghost predicate Limits(l: Lengths, maxcode: array<nat>, n: nat)
    requires n <= 16 && maxcode.Length == 17
    reads maxcode
  {
    forall s :: 1 <= s < n ==> maxcode[s] == End(l, s)
  }

  ghost predicate RangesDescribe(l: Lengths, z: ZHuffman, n: nat)
    requires n <= 16 && z.Shape()
    reads z.firstcode, z.firstsymbol, z.maxcode
  {
    FirstCodes(l, z.firstcode, n) && FirstSlots(l, z.firstsymbol, n) && Limits(l, z.maxcode, n)
  }

  class ZHuffman {
    const fast: array<nat>
    const firstcode: array<nat>
    const maxcode: array<nat>
    const firstsymbol: array<nat>
    const size: array<nat>
    const value: array<nat>

    constructor ()
      ensures Shape()
      ensures fresh(fast) && fresh(firstcode) && fresh(maxcode) && fresh(firstsymbol) && fresh(size) && fresh(value)
    {
      fast := new nat[FAST_SIZE];
      firstcode := new nat[16];
      maxcode := new nat[17];
      firstsymbol := new nat[16];
      size := new nat[NSYMS];
      value := new nat[NSYMS];
    }

    predicate Shape() {
      fast.Length == FAST_SIZE && firstcode.Length == 16 && maxcode.Length == 17
      && firstsymbol.Length == 16 && size.Length == NSYMS && value.Length == NSYMS
      && firstcode != firstsymbol && size != value
    }

    ghost function Tables(): set<object> {
      {fast, firstcode, maxcode, firstsymbol, size, value}
    }

    /** The tables decode the canonical code of the lengths `l`. */
    ghost predicate Describes(l: Lengths)
      reads fast, firstcode, maxcode, firstsymbol, size, value
    {
      && Shape() && |l| <= NSYMS && Acceptable(l)
      && FastDescribes(l, fast, |l|)
      && RangesDescribe(l, this, 16)
      && maxcode[16] == 0x10000
      && SlotsDescribe(l, size, value, |l|)
    }
  }

  ghost predicate CountsAll(l: Lengths, sizes: array<nat>)
    reads sizes
  {
    sizes.Length == 17 && forall s :: 1 <= s <= 15 ==> sizes[s] == Count(l, s, |l|)
  }

  method CountSizes(l: Lengths) returns (sizes: array<nat>)
    ensures fresh(sizes) && CountsAll(l, sizes)
  {
    sizes := new nat[17](_ => 0);
    var i := 0;
    while i < |l|
      invariant i <= |l|
      invariant forall s :: 0 <= s <= 15 ==> sizes[s] == Count(l, s, i)
    {
      sizes[l[i]] := sizes[l[i]] + 1;
      i := i + 1;
    }
    sizes[0] := 0;
  }

  /** The first screening: no length may have more symbols than codes. */
  method CheckSizes(l: Lengths, sizes: array<nat>) returns (ok: bool)
    requires CountsAll(l, sizes)
    ensures !ok ==> !Acceptable(l)
  {
    var i := 1;
    while i < 16
      invariant 1 <= i <= 16
    {
      if sizes[i] > Pow2(i) {
        assert !Fits(l, i);
        return false;
      }
      i := i + 1;
    }
    return true;
  }

  method SetFirst(next: array<nat>, ghost l: Lengths, i: nat, code: nat)
    requires 1 <= i <= 15 && next.Length == 16 && FirstCodes(l, next, i) && code == FirstCode(l, i)
    modifies next
    ensures FirstCodes(l, next, i + 1)
  {
    next[i] := code;
  }

  method SetSlot(firstsymbol: array<nat>, ghost l: Lengths, i: nat, k: nat)
    requires 1 <= i <= 15 && firstsymbol.Length == 16 && FirstSlots(l, firstsymbol, i) && k == Shorter(l, i, |l|)
    modifies firstsymbol
    ensures FirstSlots(l, firstsymbol, i + 1)
  {
    firstsymbol[i] := k;
  }

  /** Preshift the first code past length `i`, unless there are more codes than room. */
  method SetLimit(maxcode: array<nat>, ghost l: Lengths, i: nat, code: nat, size: nat) returns (ok: bool)
    requires 1 <= i <= 15 && maxcode.Length == 17 && Limits(l, maxcode, i)
    requires size == Count(l, i, |l|) && code == FirstCode(l, i) + size
    modifies maxcode
    ensures ok <==> Fits(l, i)
    ensures ok ==> Limits(l, maxcode, i + 1)
  {
    if size > 0 && code - 1 >= Pow2(i) { return false; }
    maxcode[i] := Shl(code, 16 - i);
    return true;
  }

  predicate FitsBelow(l: Lengths, n: nat)
    requires n <= 16
  {
    forall s :: 1 <= s < n ==> Fits(l, s)
  }

  lemma FitsStep(l: Lengths, n: nat)
    requires 1 <= n <= 15 && FitsBelow(l, n) && Fits(l, n)
    ensures FitsBelow(l, n + 1)
  {
  }

  /** The loop over the lengths: first code, first slot and preshifted limit of each. */
  method AssignCodes(z: ZHuffman, l: Lengths, sizes: array<nat>, next: array<nat>) returns (ok: bool)
    requires z.Shape() && next.Length == 16 && CountsAll(l, sizes)
    requires sizes != z.maxcode && next != z.firstcode && next != z.firstsymbol
    modifies z.firstcode, z.firstsymbol, z.maxcode, next
    ensures ok <==> Acceptable(l)
    ensures ok ==> RangesDescribe(l, z, 16)
    ensures ok ==> FirstCodes(l, next, 16)
  {
    var code, k, i := 0, 0, 1;
    while i < 16
      invariant 1 <= i <= 16
      invariant code == FirstCode(l, i) && k == Shorter(l, i, |l|)
      invariant FitsBelow(l, i)
      invariant FirstCodes(l, next, i)
      invariant CountsAll(l, sizes)
      invariant RangesDescribe(l, z, i)
    {
      SetFirst(next, l, i, code);
      SetFirst(z.firstcode, l, i, code);
      SetSlot(z.firstsymbol, l, i, k);
      var size := sizes[i];
      code := code + size;
      var fits := SetLimit(z.maxcode, l, i, code, size);
      if !fits { return false; }
      FitsStep(l, i);
      code := 2 * code;
      k := k + size;
      i := i + 1;
    }
    return true;
  }

  /** Between `j` and `j + 2^s` no number has the same low `s` bits as `j`. */
  lemma {:induction false} StepLow(j: nat, s: nat, x: nat)
    requires j < x <= j + Pow2(s)
    ensures Low(x, s) == Low(j, s) <==> x == j + Pow2(s)
  {
    if s > 0 {
      HalfStep(j, Pow2(s - 1));
      if x % 2 == j % 2 { StepLow(j / 2, s - 1, x / 2); }
    }
  }

  /** Enter one short code: every cell whose low `s` bits are the reversed code. */
  method FillFast(fast: array<nat>, start: nat, s: nat, fastv: nat)
    requires fast.Length == FAST_SIZE && start < Pow2(s)
    modifies fast
    ensures forall x :: 0 <= x < FAST_SIZE ==> fast[x] == if Low(x, s) == start then fastv else old(fast[x])
  {
    var p := Pow2(s);
    var j := start;
    forall x: nat | x <= start ensures Low(x, s) == x { LowSmall(x, s); }
    while j < FAST_SIZE
      invariant start <= j && Low(j, s) == start
      invariant forall x :: 0 <= x < FAST_SIZE && x < j ==> fast[x] == if Low(x, s) == start then fastv else old(fast[x])
      invariant forall x :: j <= x < FAST_SIZE ==> fast[x] == old(fast[x])
    {
      forall x: nat | j < x <= j + p ensures Low(x, s) == start <==> x == j + p { StepLow(j, s, x); }
      fast[j] := fastv;
      j := j + p;
    }
  }

  method EnterFast(fast: array<nat>, l: Lengths, i: nat, start: nat)
    requires Used(l, i) && i < NSYMS && l[i] <= FAST_BITS && Acceptable(l)
    requires start == Reverse(CodeOf(l, i), l[i])
    requires FastDescribes(l, fast, i)
    modifies fast
    ensures FastDescribes(l, fast, i + 1)
  {
    ghost var was := fast[..];
    FillFast(fast, start, l[i], l[i] * 512 + i);
    assert (l[i] * 512 + i) % 512 == i && (l[i] * 512 + i) / 512 == l[i];
    forall x: nat | x < FAST_SIZE ensures FastEntry(l, fast[x], x, i + 1) {
      MatchIffLow(l, x, i);
      assert FastEntry(l, was[x], x, i);
    }
  }

  method EnterSlot(z: ZHuffman, l: Lengths, i: nat, c: nat)
    requires z.Shape() && |l| <= NSYMS && Used(l, i) && c == Slot(l, i)
    requires SlotsDescribe(l, z.size, z.value, i)
    modifies z.size, z.value
    ensures SlotsDescribe(l, z.size, z.value, i + 1)
  {
    SlotBound(l, i);
    ghost var size0, value0 := z.size[..], z.value[..];
    z.size[c] := l[i];
    z.value[c] := i;
    forall k: nat | k < i + 1 && Used(l, k) ensures SlotHolds(l, z.size, z.value, k) {
      SlotBound(l, k);
      if Slot(l, k) == c {
        SlotInjective(l, k, i);
      } else {
        assert size0[Slot(l, k)] == l[k] && value0[Slot(l, k)] == k;
      }
    }
  }

  lemma FastSkips(l: Lengths, fast: array<nat>, i: nat)
    requires i < |l| && (l[i] == 0 || l[i] > FAST_BITS) && FastDescribes(l, fast, i)
    ensures FastDescribes(l, fast, i + 1)
  {
    forall x: nat | x < FAST_SIZE ensures FastEntry(l, fast[x], x, i + 1) {
      assert FastEntry(l, fast[x], x, i);
    }
  }

  /** What is left to hand out: the next code of each length. */
  ghost predicate NextCodes(l: Lengths, next: array<nat>, n: nat)
    requires n <= |l| && next.Length == 16
    reads next
  {
    forall s :: 1 <= s <= 15 ==> next[s] == FirstCode(l, s) + Count(l, s, n)
  }

  method EnterSymbol(z: ZHuffman, l: Lengths, i: nat, code: nat)
    requires z.Shape() && |l| <= NSYMS && Acceptable(l)
    requires Used(l, i) && code == CodeOf(l, i)
    requires RangesDescribe(l, z, 16)
    requires FastDescribes(l, z.fast, i) && SlotsDescribe(l, z.size, z.value, i)
    modifies z.fast, z.size, z.value
    ensures FastDescribes(l, z.fast, i + 1) && SlotsDescribe(l, z.size, z.value, i + 1)
  {
    var s := l[i];
    EnterSlot(z, l, i, code - z.firstcode[s] + z.firstsymbol[s]);
    if s <= FAST_BITS {
      BitReverseCorrect(code, s);
      EnterFast(z.fast, l, i, BitReverse(code, s));
    } else {
      FastSkips(l, z.fast, i);
    }
  }

  method NextCode(next: array<nat>, ghost l: Lengths, ghost i: nat, s: nat) returns (code: nat)
    requires next.Length == 16 && Used(l, i) && s == l[i] && NextCodes(l, next, i)
    modifies next
    ensures code == CodeOf(l, i) && NextCodes(l, next, i + 1)
  {
    code := next[s];
    next[s] := code + 1;
  }

  /** The loop over the symbols, in symbol order. */
  method EnterSymbols(z: ZHuffman, l: Lengths, next: array<nat>)
    requires z.Shape() && |l| <= NSYMS && Acceptable(l)
    requires next.Length == 16 && FirstCodes(l, next, 16) && next != z.firstcode && next != z.firstsymbol
    requires RangesDescribe(l, z, 16)
    requires forall x :: 0 <= x < FAST_SIZE ==> z.fast[x] == 0
    modifies z.fast, z.size, z.value, next
    ensures FastDescribes(l, z.fast, |l|)
    ensures SlotsDescribe(l, z.size, z.value, |l|)
  {
    var i := 0;
    while i < |l|
      invariant i <= |l|
      invariant NextCodes(l, next, i)
      invariant FastDescribes(l, z.fast, i)
      invariant SlotsDescribe(l, z.size, z.value, i)
      invariant RangesDescribe(l, z, 16)
    {
      var s := l[i];
      if s > 0 {
        var code := NextCode(next, l, i, s);
        EnterSymbol(z, l, i, code);
      } else {
        FastSkips(l, z.fast, i);
      }
      i := i + 1;
    }
  }

  /** `stbi__zbuild_huffman`: accepts exactly the lengths that leave every code room. */
  method Build(z: ZHuffman, l: Lengths) returns (ok: bool)
    requires z.Shape() && |l| <= NSYMS
    modifies z.Tables()
    ensures ok <==> Acceptable(l)
    ensures ok ==> z.Describes(l)
  {
    ClearFast(z.fast);
    var sizes := CountSizes(l);
    ok := CheckSizes(l, sizes);
    if ok {
      var next := new nat[16];
      ok := AssignCodes(z, l, sizes, next);
      if ok {
        z.maxcode[16] := 0x10000;
        EnterSymbols(z, l, next);
      }
    }
  }

  method ClearFast(fast: array<nat>)
    requires fast.Length == FAST_SIZE
    modifies fast
    ensures forall x :: 0 <= x < FAST_SIZE ==> fast[x] == 0
  {
    forall x | 0 <= x < FAST_SIZE { fast[x] := 0; }
  }
}
