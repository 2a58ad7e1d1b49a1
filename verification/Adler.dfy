/** The Adler-32 checksum of RFC 1950, and the writer's deferred-modulo computation of it. */
module Adler {
  import opened Bits

  const BASE := 65521
  const CHUNK := 5552
  const WORD := 0x1_0000_0000

  /** The two sums over `data`, reduced after every byte. */
  function Sums(data: seq<byte>): (r: (nat, nat))
    ensures r.0 < BASE && r.1 < BASE
  {
    if data == [] then (1, 0)
    else
      var s := Sums(data[..|data| - 1]);
      var s1 := (s.0 + data[|data| - 1]) % BASE;
      (s1, (s.1 + s1) % BASE)
  }

  lemma SumsStep(data: seq<byte>, j: nat, s1: nat, s2: nat)
    requires j < |data|
    requires s1 % BASE == Sums(data[..j]).0 && s2 % BASE == Sums(data[..j]).1
    ensures (s1 + data[j]) % BASE == Sums(data[..j + 1]).0
    ensures (s2 + (s1 + data[j])) % BASE == Sums(data[..j + 1]).1
  {
    assert data[..j + 1][..j] == data[..j];
    AddMod(s1, data[j]);
    var t := (s1 + data[j]) % BASE;
    AddMod(s2, s1 + data[j]);
    AddMod(s1 + data[j], s2 % BASE);
  }

  /** Reducing one summand first does not change the sum modulo BASE. */
  lemma AddMod(x: nat, y: nat)
    ensures (x + y) % BASE == (x % BASE + y) % BASE
  {
    var q, r := x / BASE, x % BASE;
    var p, s := (r + y) / BASE, (r + y) % BASE;
    assert x + y == BASE * (q + p) + s;
  }

  /** 0 + 1 + ... + n. */
  function Triangle(n: nat): nat {
    if n == 0 then 0 else Triangle(n - 1) + n
  }

  lemma {:induction false} TriangleMono(n: nat, m: nat)
    requires n <= m
    ensures Triangle(n) <= Triangle(m)
  {
    if n < m { TriangleMono(n, m - 1); }
  }

  lemma {:induction false} TriangleClosed(m: nat)
    ensures 2 * Triangle(m) == m * (m + 1)
  {
    if m > 0 {
      TriangleClosed(m - 1);
      assert m * (m + 1) == (m - 1) * m + 2 * m;
    }
  }

  /** The sums of a chunk stay inside a 32-bit word: this is what fixes its length. */
  lemma NoWrap(i: nat, s1: nat, s2: nat)
    requires i <= CHUNK && s1 <= BASE - 1 + 255 * i
    requires s2 <= (BASE - 1) * (i + 1) + 255 * Triangle(i)
    ensures s1 < WORD && s2 < WORD
  {
    TriangleMono(i, CHUNK);
    TriangleClosed(CHUNK);
  }

  /** The running sums after `i` bytes of the chunk at `j`: right modulo BASE, and small. */
  predicate InChunk(data: seq<byte>, j: nat, i: nat, s1: nat, s2: nat) {
    && j + i <= |data|
    && s1 <= BASE - 1 + 255 * i && s2 <= (BASE - 1) * (i + 1) + 255 * Triangle(i)
    && s1 % BASE == Sums(data[..j + i]).0 && s2 % BASE == Sums(data[..j + i]).1
  }

  lemma ChunkStep(data: seq<byte>, j: nat, i: nat, s1: nat, s2: nat)
    requires InChunk(data, j, i, s1, s2) && j + i < |data| && i < CHUNK
    ensures InChunk(data, j, i + 1, s1 + data[j + i], s2 + (s1 + data[j + i]))
    ensures s1 + data[j + i] < WORD && s2 + (s1 + data[j + i]) < WORD
  {
    SumsStep(data, j + i, s1, s2);
    NoWrap(i + 1, s1 + data[j + i], s2 + (s1 + data[j + i]));
  }

  /** One chunk: `s1 += data[j + i]; s2 += s1`, in 32-bit words that never wrap. */
  method AddChunk(data: seq<byte>, j: nat, len: nat, a: nat, b: nat) returns (s1: nat, s2: nat)
    requires len <= CHUNK && j + len <= |data|
    requires a == Sums(data[..j]).0 && b == Sums(data[..j]).1
    ensures s1 == Sums(data[..j + len]).0 && s2 == Sums(data[..j + len]).1
  {
    s1, s2 := a, b;
    var i: nat := 0;
    while i < len
      invariant i <= len && InChunk(data, j, i, s1, s2)
    {
      ChunkStep(data, j, i, s1, s2);
      s1 := s1 + data[j + i];
      s2 := s2 + s1;
      i := i + 1;
    }
    s1 := s1 % BASE;
    s2 := s2 % BASE;
  }

  /** `left` bytes are a chunk of `len` and then whole chunks. */
  predicate Chunked(left: nat, len: nat) {
    len <= CHUNK && len <= left && (left - len) % CHUNK == 0
  }

  lemma FirstChunk(n: nat)
    ensures Chunked(n, n % CHUNK)
  {
  }

  lemma NextChunk(left: nat, len: nat)
    requires Chunked(left, len) && len < left
    ensures Chunked(left - len, CHUNK)
  {
  }

  /** The four checksum bytes, most significant first. */
  method Checksum(data: seq<byte>) returns (tail: seq<byte>)
    ensures tail == [Sums(data).1 / 256, Sums(data).1 % 256, Sums(data).0 / 256, Sums(data).0 % 256]
  {
    var s1: nat, s2: nat := 1, 0;
    var len: nat := |data| % CHUNK;
    FirstChunk(|data|);
    var j: nat := 0;
    hide Sums;
    while j < |data|
      invariant j <= |data| && (j < |data| ==> Chunked(|data| - j, len))
      invariant s1 == Sums(data[..j]).0 && s2 == Sums(data[..j]).1
      decreases |data| - j, if len == 0 then 1 else 0
    {
      s1, s2 := AddChunk(data, j, len, s1, s2);
      if j + len < |data| { NextChunk(|data| - j, len); }
      j := j + len;
      len := CHUNK;
    }
    assert data[..j] == data;
    tail := [s2 / 256, s2 % 256, s1 / 256, s1 % 256];
  }
}
