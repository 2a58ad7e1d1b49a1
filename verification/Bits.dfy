/** Bytes, bit strings and the shift-and-mask arithmetic of a bit buffer.  A bit
    string is a `seq<bool>`, least significant bit first, which is the order in
    which DEFLATE packs bits into bytes (RFC 1951 section 3.1.1).  Shifts and
    masks are defined by doubling and halving on unbounded naturals. */
module Bits {

  type byte = x: int | 0 <= x < 256

  /** `1 << n`. */
  function Pow2(n: nat): (p: nat)
    ensures p >= 1
  {
    if n == 0 then 1 else 2 * Pow2(n - 1)
  }

  /** `v << n`. */
  function Shl(v: nat, n: nat): nat {
    if n == 0 then v else 2 * Shl(v, n - 1)
  }

  /** `v >> n`. */
  function Shr(v: nat, n: nat): nat {
    if n == 0 then v else Shr(v / 2, n - 1)
  }

  /** `v & ((1 << n) - 1)`. */
  function Low(v: nat, n: nat): (r: nat)
    ensures r < Pow2(n)
  {
    if n == 0 then 0 else v % 2 + 2 * Low(v / 2, n - 1)
  }

  /** The low `n` bits of `v`, least significant first. */
  function BitsOf(v: nat, n: nat): (b: seq<bool>)
    ensures |b| == n
  {
    if n == 0 then [] else [v % 2 == 1] + BitsOf(v / 2, n - 1)
  }

  /** The number a bit string spells. */
  function ValueOf(b: seq<bool>): (v: nat)
    ensures v < Pow2(|b|)
  {
    if b == [] then 0 else (if b[0] then 1 else 0) + 2 * ValueOf(b[1..])
  }

  /** Fields of `width` bits, one after the other. */
  function FieldBits(s: seq<byte>, width: nat): (b: seq<bool>)
  {
    if s == [] then [] else BitsOf(s[0], width) + FieldBits(s[1..], width)
  }

  /** The bits of a byte string, in the order a DEFLATE reader consumes them. */
  function StreamBits(s: seq<byte>): seq<bool> {
    FieldBits(s, 8)
  }

  /** `code` with its low `n` bits in the opposite order. */
  function Reverse(code: nat, n: nat): (r: nat)
    ensures r < Pow2(n)
  {
    if n == 0 then 0 else (if code % 2 == 1 then Pow2(n - 1) else 0) + Reverse(code / 2, n - 1)
  }

  // ---------------------------------------------------------------- shifts

  lemma {:induction false} ShlPow2(n: nat)
    ensures Shl(1, n) == Pow2(n)
  {
    if n > 0 { ShlPow2(n - 1); }
  }

  lemma {:induction false} ShlZero(n: nat)
    ensures Shl(0, n) == 0
  {
    if n > 0 { ShlZero(n - 1); }
  }

  lemma {:induction false} ShlSum(v: nat, w: nat, n: nat)
    ensures Shl(v + w, n) == Shl(v, n) + Shl(w, n)
  {
    if n > 0 { ShlSum(v, w, n - 1); }
  }

  lemma {:induction false} ShlAgain(v: nat, a: nat, b: nat)
    ensures Shl(Shl(v, a), b) == Shl(v, a + b)
  {
    if b > 0 { ShlAgain(v, a, b - 1); }
  }

  lemma {:induction false} ShrAgain(v: nat, a: nat, b: nat)
    ensures Shr(Shr(v, a), b) == Shr(v, a + b)
  {
    if a > 0 { ShrAgain(v / 2, a - 1, b); }
  }

  lemma {:induction false} ShlMono(v: nat, w: nat, n: nat)
    requires v <= w
    ensures Shl(v, n) <= Shl(w, n)
  {
    if n > 0 { ShlMono(v, w, n - 1); }
  }

  /** A shift right compares like a shift left on the other side. */
  lemma {:induction false} ShrLess(k: nat, a: nat, n: nat)
    ensures Shr(k, n) < a <==> k < Shl(a, n)
  {
    if n > 0 { ShrLess(k / 2, a, n - 1); }
  }

  /** Masking and shifting take a number apart. */
  lemma {:induction false} LowShr(v: nat, n: nat)
    ensures v == Low(v, n) + Shl(Shr(v, n), n)
  {
    if n > 0 { LowShr(v / 2, n - 1); }
  }

  lemma HalfStep(x: nat, z: nat)
    ensures (x + 2 * z) % 2 == x % 2 && (x + 2 * z) / 2 == x / 2 + z
  {
  }

  /** Taking apart `v` with `w` shifted above it. */
  lemma {:induction false} ShrLowJoin(v: nat, w: nat, n: nat)
    requires v < Pow2(n)
    ensures Shr(v + Shl(w, n), n) == w && Low(v + Shl(w, n), n) == v
  {
    if n > 0 {
      HalfStep(v, Shl(w, n - 1));
      ShrLowJoin(v / 2, w, n - 1);
    }
  }

  lemma LowSmall(v: nat, n: nat)
    requires v < Pow2(n)
    ensures Low(v, n) == v && Shr(v, n) == 0
  {
    ShlZero(n);
    ShrLowJoin(v, 0, n);
  }

  lemma {:induction false} LowZero(n: nat)
    ensures Low(0, n) == 0
  {
    if n > 0 { LowZero(n - 1); }
  }

  /** Only the low `s` bits survive both masks. */
  lemma {:induction false} LowLow(v: nat, s: nat, n: nat)
    requires s <= n
    ensures Low(Low(v, n), s) == Low(v, s)
  {
    if s > 0 {
      HalfStep(v % 2, Low(v / 2, n - 1));
      LowLow(v / 2, s - 1, n - 1);
    }
  }

  lemma {:induction false} JoinBound(v: nat, w: nat, a: nat, b: nat)
    requires v < Pow2(a) && w < Pow2(b)
    ensures v + Shl(w, a) < Pow2(a + b)
  {
    ShlPow2(a + b);
    ShlPow2(b);
    ShlPow2(a);
    ShlAgain(1, b, a);
    ShlMono(w + 1, Pow2(b), a);
    ShlSum(w, 1, a);
    assert b + a == a + b;
  }

  lemma {:induction false} Pow2Mono(a: nat, b: nat)
    requires a <= b
    ensures Pow2(a) <= Pow2(b)
  {
    if a < b { Pow2Mono(a, b - 1); }
  }

  /** How many bits it takes to write `v`. */
  function BitLength(v: nat): nat {
    if v == 0 then 0 else 1 + BitLength(v / 2)
  }

  lemma {:induction false} BitLengthBound(v: nat, n: nat)
    requires v < Pow2(n)
    ensures BitLength(v) <= n
  {
    if v > 0 { BitLengthBound(v / 2, n - 1); }
  }

  lemma {:induction false} BitLengthShr(v: nat, n: nat)
    ensures BitLength(Shr(v, n)) == if BitLength(v) <= n then 0 else BitLength(v) - n
  {
    if n > 0 { BitLengthShr(v / 2, n - 1); }
  }

  lemma ShiftBound(v: nat, n: nat, m: nat)
    requires v < Pow2(n + m)
    ensures Shr(v, n) < Pow2(m)
  {
    ShlPow2(m);
    ShlPow2(n + m);
    ShlAgain(1, m, n);
    assert m + n == n + m;
    ShrLess(v, Pow2(m), n);
  }

  /** Shifting by a whole byte is multiplying by 256. */
  lemma ShlByte(q: nat)
    ensures Shl(q, 8) == 256 * q
  {
    assert Shl(q, 1) == 2 * q;
    assert Shl(q, 3) == 8 * q;
    assert Shl(q, 5) == 32 * q;
    assert Shl(q, 7) == 128 * q;
  }

  lemma ByteSplit(v: nat)
    ensures Low(v, 8) == v % 256 && Shr(v, 8) == v / 256
  {
    ShlByte(v / 256);
    assert Pow2(8) == 256;
    ShrLowJoin(v % 256, v / 256, 8);
  }

  // ---------------------------------------------------------------- bit strings

  /** Or-ing `w` in above an `a`-bit `v` appends its bits. */
  lemma {:induction false} BitsJoin(v: nat, w: nat, a: nat, b: nat)
    requires v < Pow2(a)
    ensures BitsOf(v + Shl(w, a), a + b) == BitsOf(v, a) + BitsOf(w, b)
  {
    if a > 0 {
      HalfStep(v, Shl(w, a - 1));
      BitsJoin(v / 2, w, a - 1, b);
    }
  }

  /** Shifting right by `a` drops the first `a` bits. */
  lemma {:induction false} BitsSplit(v: nat, a: nat, b: nat)
    ensures BitsOf(v, a + b) == BitsOf(v, a) + BitsOf(Shr(v, a), b)
  {
    if a > 0 { BitsSplit(v / 2, a - 1, b); }
  }

  lemma {:induction false} BitsOfLow(v: nat, a: nat)
    ensures BitsOf(Low(v, a), a) == BitsOf(v, a)
  {
    if a > 0 {
      HalfStep(v % 2, Low(v / 2, a - 1));
      BitsOfLow(v / 2, a - 1);
    }
  }

  lemma {:induction false} ValueOfBits(v: nat, n: nat)
    ensures ValueOf(BitsOf(v, n)) == Low(v, n)
  {
    if n > 0 {
      ValueOfBits(v / 2, n - 1);
      assert BitsOf(v, n)[1..] == BitsOf(v / 2, n - 1);
    }
  }

  lemma {:induction false} BitsOfValue(b: seq<bool>)
    ensures BitsOf(ValueOf(b), |b|) == b
  {
    if b != [] {
      BitsOfValue(b[1..]);
      assert b == [b[0]] + b[1..];
    }
  }

  lemma BitsInjective(v: nat, w: nat, n: nat)
    requires BitsOf(v, n) == BitsOf(w, n)
    ensures Low(v, n) == Low(w, n)
  {
    ValueOfBits(v, n);
    ValueOfBits(w, n);
  }

  lemma Assoc<T>(a: seq<T>, b: seq<T>, c: seq<T>)
    ensures a + (b + c) == (a + b) + c
  {
  }

  lemma {:induction false} FieldsAppend(s: seq<byte>, t: seq<byte>, width: nat)
    ensures FieldBits(s + t, width) == FieldBits(s, width) + FieldBits(t, width)
  {
    if s == [] {
      assert s + t == t;
    } else {
      var u := s + t;
      assert u[0] == s[0] && u[1..] == s[1..] + t;
      FieldsAppend(s[1..], t, width);
      Assoc(BitsOf(s[0], width), FieldBits(s[1..], width), FieldBits(t, width));
    }
  }

  lemma StreamAppend(s: seq<byte>, t: seq<byte>)
    ensures StreamBits(s + t) == StreamBits(s) + StreamBits(t)
  {
    FieldsAppend(s, t, 8);
  }

  lemma {:induction false} FieldsLength(s: seq<byte>, width: nat)
    ensures |FieldBits(s, width)| == |s| * width
  {
    if s != [] { FieldsLength(s[1..], width); }
  }

  lemma StreamLength(s: seq<byte>)
    ensures |StreamBits(s)| == 8 * |s|
  {
    FieldsLength(s, 8);
  }

  lemma StreamOne(b: byte)
    ensures StreamBits([b]) == BitsOf(b, 8)
  {
    FieldsOne(b, 8);
  }

  lemma FieldsOne(b: byte, width: nat)
    ensures FieldBits([b], width) == BitsOf(b, width)
  {
    assert FieldBits([b][1..], width) == [];
  }

  /** The stream from byte `pos` starts with that byte. */
  lemma StreamNext(s: seq<byte>, pos: nat)
    requires pos < |s|
    ensures StreamBits(s[pos..]) == BitsOf(s[pos], 8) + StreamBits(s[pos + 1..])
  {
    assert s[pos..][1..] == s[pos + 1..];
  }

  lemma {:induction false} FieldsCancel(s: seq<byte>, h: seq<byte>, more: seq<bool>, width: nat)
    requires 0 < width && Pow2(width) >= 256
    requires FieldBits(s, width) == FieldBits(h, width) + more
    requires |h| <= |s|
    ensures s[..|h|] == h && more == FieldBits(s[|h|..], width)
  {
    if h == [] {
      assert s[0..] == s;
    } else {
      var a, b := BitsOf(s[0], width), BitsOf(h[0], width);
      var x := FieldBits(s, width);
      Assoc(b, FieldBits(h[1..], width), more);
      assert x[..width] == a && x[..width] == b;
      assert x[width..] == FieldBits(s[1..], width) && x[width..] == FieldBits(h[1..], width) + more;
      BitsInjective(s[0], h[0], width);
      LowSmall(s[0], width);
      LowSmall(h[0], width);
      FieldsCancel(s[1..], h[1..], more, width);
      assert s[1..][..|h| - 1] == s[1..|h|] && s[1..][|h| - 1..] == s[|h|..];
    }
  }

  /** Whole bytes at the front of a byte stream are its first bytes. */
  lemma StreamCancel(s: seq<byte>, h: seq<byte>, more: seq<bool>)
    requires StreamBits(s) == StreamBits(h) + more
    ensures |h| <= |s| && s[..|h|] == h && more == StreamBits(s[|h|..])
  {
    StreamLength(s);
    StreamLength(h);
    assert Pow2(8) == 256;
    FieldsCancel(s, h, more, 8);
  }

  lemma BitsStep(v: nat, n: nat)
    requires n > 0
    ensures BitsOf(v, n) == [v % 2 == 1] + BitsOf(v / 2, n - 1)
  {
  }

  lemma ByteAsHeader(b: byte)
    requires (b / 2) % 4 == 0
    ensures BitsOf(b, 8) == [b % 2 == 1] + (BitsOf(0, 2) + BitsOf(b / 8, 5))
  {
    var b1, b2 := b / 2, b / 4;
    assert b1 / 2 == b2 && b2 / 2 == b / 8 && b1 % 2 == 0 && b2 % 2 == 0;
    BitsStep(b, 8);
    BitsStep(b1, 7);
    BitsStep(b2, 6);
    TwoZeros(BitsOf(b / 8, 5));
  }

  lemma TwoZeros(rest: seq<bool>)
    ensures [false] + ([false] + rest) == BitsOf(0, 2) + rest
  {
    BitsStep(0, 2);
    BitsStep(0, 1);
  }

  // ---------------------------------------------------------------- bit reversal

  lemma {:induction false} ReverseOfLow(w: nat, s: nat, n: nat)
    requires s <= n
    ensures Reverse(Low(w, n), s) == Reverse(w, s)
  {
    if s > 0 {
      HalfStep(w % 2, Low(w / 2, n - 1));
      ReverseOfLow(w / 2, s - 1, n - 1);
    }
  }

  lemma {:induction false} ReverseTop(x: nat, y: nat, n: nat)
    requires x < Pow2(n) && y < 2
    ensures Reverse(x + Shl(y, n), n + 1) == y + 2 * Reverse(x, n)
  {
    if n == 0 {
      assert Reverse(y, 1) == (if y % 2 == 1 then Pow2(0) else 0) + Reverse(y / 2, 0);
    } else {
      HalfStep(x, Shl(y, n - 1));
      ReverseTop(x / 2, y, n - 1);
    }
  }

  lemma {:induction false} ReverseTwice(w: nat, n: nat)
    ensures Reverse(Reverse(w, n), n) == Low(w, n)
  {
    if n > 0 {
      var bit := w % 2;
      ReverseTwice(w / 2, n - 1);
      ReverseTop(Reverse(w / 2, n - 1), bit, n - 1);
      if bit == 0 { ShlZero(n - 1); } else { ShlPow2(n - 1); }
    }
  }

  /** Reversing a + b bits puts the reversed low `a` of them on top. */
  lemma {:induction false} ReverseSplit(w: nat, a: nat, b: nat)
    ensures Reverse(w, a + b) == Reverse(Shr(w, a), b) + Shl(Reverse(w, a), b)
  {
    if a == 0 {
      ShlZero(b);
    } else {
      ReverseSplit(w / 2, a - 1, b);
      ShlPow2(a - 1);
      ShlPow2(a - 1 + b);
      ShlAgain(1, a - 1, b);
      if w % 2 == 1 { ShlSum(Pow2(a - 1), Reverse(w / 2, a - 1), b); }
    }
  }

  /** The top `a` of the a + b reversed bits are the reversed low `a` bits. */
  lemma ReverseShr(w: nat, a: nat, b: nat)
    ensures Shr(Reverse(w, a + b), b) == Reverse(w, a)
  {
    ReverseSplit(w, a, b);
    ShrLowJoin(Reverse(Shr(w, a), b), Reverse(w, a), b);
  }
}
