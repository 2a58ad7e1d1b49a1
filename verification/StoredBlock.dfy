/** `stbi__parse_uncompressed_block`: back from bits to bytes. */
module StoredBlock {
  import opened Bits
  import opened ZlibBits
  import opened Deflate
  import opened Inflate

  /** The whole bytes still waiting in the code buffer. */
  function Drained(code: nat, n: nat): (s: seq<byte>)
    ensures |s| == n
  {
    if n == 0 then [] else [code % 256] + Drained(code / 256, n - 1)
  }

  /** All bytes not consumed yet, when the reader stands on a byte boundary. */
  ghost function BytesLeft(z: ZBuf): seq<byte>
    requires z.Valid()
    reads z
  {
    Drained(z.codeBuffer, z.numBits / 8) + z.zbuffer[z.pos..]
  }

  lemma {:induction false} DrainedBits(code: nat, n: nat)
    ensures BitsOf(code, 8 * n) == StreamBits(Drained(code, n))
  {
    if n > 0 {
      ByteSplit(code);
      BitsSplit(code, 8, 8 * (n - 1));
      BitsOfLow(code, 8);
      DrainedBits(code / 256, n - 1);
      var s := Drained(code, n);
      assert s[1..] == Drained(code / 256, n - 1);
    }
  }

  lemma RestIsBytes(z: ZBuf)
    requires z.Valid() && z.numBits % 8 == 0
    ensures z.Rest() == StreamBits(BytesLeft(z))
  {
    DrainedBits(z.codeBuffer, z.numBits / 8);
    StreamAppend(Drained(z.codeBuffer, z.numBits / 8), z.zbuffer[z.pos..]);
  }

  /** The next byte: from the code buffer while it lasts, then from the input, zero past its end. */
  method DrainByte(z: ZBuf) returns (b: byte)
    requires z.Valid() && z.numBits % 8 == 0 && z.numBits > 0
    modifies z`numBits, z`codeBuffer
    ensures z.Valid() && z.Ahead() <= old(z.Ahead()) && z.numBits == old(z.numBits) - 8
    ensures old(BytesLeft(z)) == [b] + BytesLeft(z)
  {
    ByteSplit(z.codeBuffer);
    b := z.codeBuffer % 256;
    z.Consume(8);
  }

  method Get8(z: ZBuf) returns (b: byte)
    requires z.Valid() && z.numBits == 0
    modifies z`pos
    ensures z.Valid() && z.Ahead() <= old(z.Ahead())
    ensures if old(z.AtEof()) then b == 0 && z.pos == old(z.pos) else b == z.zbuffer[old(z.pos)] && z.pos == old(z.pos) + 1
    ensures if old(BytesLeft(z)) == [] then b == 0 && BytesLeft(z) == [] else old(BytesLeft(z)) == [b] + BytesLeft(z)
  {
    if z.AtEof() { return 0; }
    b := z.zbuffer[z.pos];
    z.pos := z.pos + 1;
  }

  /** The first four bytes, with zeros for those past the end. */
  function FirstFour(s: seq<byte>): (h: seq<byte>)
    ensures |h| == 4
  {
    if |s| >= 4 then s[..4] else s + seq(4 - |s|, _ => 0)
  }

  function AfterFour(s: seq<byte>): seq<byte> {
    if |s| >= 4 then s[4..] else []
  }

  lemma FourStep(h: seq<byte>, b: byte, s: seq<byte>, t: seq<byte>)
    requires |h| < 4
    requires s == [b] + t || (s == [] && t == [] && b == 0)
    ensures FirstFour(h + s) == FirstFour(h + [b] + t) && AfterFour(h + s) == AfterFour(h + [b] + t)
  {
    if s == [] {
      assert h + s == h;
    } else {
      assert h + s == h + [b] + t;
    }
  }

  lemma FourDone(h: seq<byte>, t: seq<byte>)
    requires |h| == 4
    ensures FirstFour(h + t) == h && AfterFour(h + t) == t
  {
  }

  method ReadHeader(z: ZBuf) returns (h: seq<byte>)
    requires z.Valid() && z.numBits % 8 == 0
    modifies z`pos, z`numBits, z`codeBuffer
    ensures z.Valid() && z.Ahead() <= old(z.Ahead()) && z.numBits == 0
    ensures h == FirstFour(old(BytesLeft(z))) && BytesLeft(z) == AfterFour(old(BytesLeft(z)))
  {
    ghost var all := BytesLeft(z);
    h := [];
    assert h + all == all;
    while z.numBits > 0
      invariant z.Valid() && z.Ahead() <= old(z.Ahead()) && z.numBits % 8 == 0 && |h| + z.numBits / 8 <= 4
      invariant FirstFour(h + BytesLeft(z)) == FirstFour(all) && AfterFour(h + BytesLeft(z)) == AfterFour(all)
    {
      ghost var s := BytesLeft(z);
      var b := DrainByte(z);
      FourStep(h, b, s, BytesLeft(z));
      h := h + [b];
    }
    while |h| < 4
      invariant z.Valid() && z.Ahead() <= old(z.Ahead()) && z.numBits == 0 && |h| <= 4
      invariant FirstFour(h + BytesLeft(z)) == FirstFour(all) && AfterFour(h + BytesLeft(z)) == AfterFour(all)
    {
      ghost var s := BytesLeft(z);
      var b := Get8(z);
      FourStep(h, b, s, BytesLeft(z));
      h := h + [b];
    }
    FourDone(h, BytesLeft(z));
  }

  function Len(h: seq<byte>): nat
    requires |h| >= 4
  {
    h[1] as int * 256 + h[0] as int
  }

  function Nlen(h: seq<byte>): nat
    requires |h| >= 4
  {
    h[3] as int * 256 + h[2] as int
  }

  /** A stored block stands at the front of `s`: LEN, its complement and that many bytes. */
  predicate StoredPrefix(s: seq<byte>) {
    |s| >= 4 && Nlen(s) == 0xffff - Len(s) && |s| >= 4 + Len(s)
  }

  /** Drop the bits up to the next byte boundary. */
  method Align(z: ZBuf) returns (ghost bytes: seq<byte>)
    requires z.Valid()
    modifies z`pos, z`numBits, z`codeBuffer
    ensures z.Valid() && z.Ahead() <= old(z.Ahead()) && z.numBits % 8 == 0 && bytes == BytesLeft(z)
    ensures StreamBits(bytes) == old(z.Rest())[old(z.numBits) % 8..]
  {
    var odd := z.numBits % 8;
    RoundDown(z.numBits);
    if odd != 0 {
      var skipped := z.Receive(odd);
      DropFront(BitsOf(skipped, odd), z.Rest());
    }
    RestIsBytes(z);
    bytes := BytesLeft(z);
  }

  lemma RoundDown(n: nat)
    ensures n % 8 <= n && (n - n % 8) % 8 == 0
  {
  }

  lemma DropFront<T>(a: seq<T>, b: seq<T>)
    ensures (a + b)[|a|..] == b
  {
  }

  method CopyStored(z: ZBuf, len: nat) returns (ok: bool)
    requires z.Valid() && z.numBits == 0
    modifies z`pos, z`zout, z`limit
    ensures z.Valid() && z.Ahead() <= old(z.Ahead())
    ensures ok ==> len <= |old(BytesLeft(z))|
                   && z.zout == old(z.zout) + old(BytesLeft(z))[..len] && BytesLeft(z) == old(BytesLeft(z))[len..]
    ensures ok <==> len <= |old(BytesLeft(z))| && |old(z.zout)| + len <= old(z.Capacity())
    ensures z.Capacity() == old(z.Capacity())
  {
    assert BytesLeft(z) == z.zbuffer[z.pos..];
    if z.pos + len > |z.zbuffer| { return false; }
    ok := Reserve(z, len);
    if ok {
      z.zout := z.zout + z.zbuffer[z.pos..z.pos + len];
      z.pos := z.pos + len;
    }
  }

  lemma SplitFour(s: seq<byte>, len: nat)
    requires |s| >= 4 + len
    ensures AfterFour(s)[..len] == s[4..4 + len] && AfterFour(s)[len..] == s[4 + len..]
  {
  }

  /** A header padded with zeros is never believed. */
  lemma ShortHeader(s: seq<byte>)
    ensures StoredPrefix(s) <==> Nlen(FirstFour(s)) == 0xffff - Len(FirstFour(s)) && Len(FirstFour(s)) <= |AfterFour(s)|
  {
  }

  lemma {:induction false} DrainedZero(n: nat)
    ensures forall i :: 0 <= i < n ==> Drained(0, n)[i] == 0
  {
    if n > 0 { DrainedZero(n - 1); }
  }

  /** Past everything nonzero, no header is believed. */
  lemma NothingAhead(z: ZBuf)
    requires z.Valid() && z.Ahead() == 0
    ensures !StoredPrefix(BytesLeft(z))
  {
    DrainedZero(z.numBits / 8);
    assert z.codeBuffer == 0 && z.zbuffer[z.pos..] == [];
  }

  /** `stbi__parse_uncompressed_block`.  `bytes` is what follows the padding bits; the
      block is accepted exactly when it starts with a stored block. */
  method ParseStored(z: ZBuf) returns (ok: bool, ghost bytes: seq<byte>)
    requires z.Valid()
    modifies z`pos, z`numBits, z`codeBuffer, z`zout, z`limit
    ensures z.Valid() && z.Ahead() <= old(z.Ahead())
    ensures StreamBits(bytes) == old(z.Rest())[old(z.numBits) % 8..]
    ensures old(z.Ahead()) == 0 ==> !ok
    ensures ok ==> StoredPrefix(bytes) && z.zout == old(z.zout) + bytes[4..4 + Len(bytes)]
                   && z.Rest() == StreamBits(bytes[4 + Len(bytes)..])
    ensures ok <==> StoredPrefix(bytes) && |old(z.zout)| + Len(bytes) <= old(z.Capacity())
    ensures z.Capacity() == old(z.Capacity())
  {
    bytes := Align(z);
    if z.Ahead() == 0 { NothingAhead(z); }
    var h := ReadHeader(z);
    ShortHeader(bytes);
    var len, nlen := Len(h), Nlen(h);
    if nlen != 0xffff - len { return false, bytes; }
    ok := CopyStored(z, len);
    if ok {
      SplitFour(bytes, len);
      RestIsBytes(z);
    }
  }
}
