/** The string matcher of `stbi_zlib_compress`: hash chains and lazy matching. */
module Lz77 {
  import opened Bits
  import opened Deflate

  const ZHASH := 16384
  const MAX_MATCH := 258
  const MIN_MATCH := 3
  const WINDOW := 32768

  /** `stbiw__zhash`, on 32-bit words. */
  function ZHash(d0: byte, d1: byte, d2: byte): bv32 {
    var h0: bv32 := (d0 as bv32) + ((d1 as bv32) << 8) + ((d2 as bv32) << 16);
    var h1: bv32 := h0 ^ (h0 << 3);
    var h2: bv32 := h1 + (h1 >> 5);
    var h3: bv32 := h2 ^ (h2 << 4);
    var h4: bv32 := h3 + (h3 >> 17);
    var h5: bv32 := h4 ^ (h4 << 25);
    h5 + (h5 >> 6)
  }

  /** The chain of position `i`. */
  function Bucket(data: seq<byte>, i: nat): (h: nat)
    requires i + 3 <= |data|
    ensures h < ZHASH
  {
    (ZHash(data[i], data[i + 1], data[i + 2]) as int) % ZHASH
  }

  /** How far the strings at `a` and `b` agree, up to `limit` and the longest match. */
  function MatchLength(data: seq<byte>, a: nat, b: nat, limit: nat, from: nat): (n: nat)
    requires a <= b && b + limit <= |data|
    requires from <= limit && from <= MAX_MATCH
    ensures from <= n <= limit && n <= MAX_MATCH
    ensures data[a + from..a + n] == data[b + from..b + n]
    decreases limit - from
  {
    if from < limit && from < MAX_MATCH && data[a + from] == data[b + from] then
      var n := MatchLength(data, a, b, limit, from + 1);
      assert data[a + from..a + n] == [data[a + from]] + data[a + from + 1..a + n];
      assert data[b + from..b + n] == [data[b + from]] + data[b + from + 1..b + n];
      n
    else from
  }

  ghost predicate Ends(data: seq<byte>, a: nat, b: nat, limit: nat, n: nat) {
    n == limit || n == 258 || (a + n < |data| && b + n < |data| && data[a + n] != data[b + n])
  }

  lemma MatchStep(data: seq<byte>, a: nat, b: nat, limit: nat, from: nat)
    requires a <= b && b + limit <= |data| && from <= limit && from <= MAX_MATCH
    ensures if from < limit && from < MAX_MATCH && data[a + from] == data[b + from]
            then MatchLength(data, a, b, limit, from) == MatchLength(data, a, b, limit, from + 1)
            else MatchLength(data, a, b, limit, from) == from && Ends(data, a, b, limit, from)
  {
  }

  /** A match ends at the limit, at 258 bytes, or where the strings differ. */
  lemma {:induction false} MatchEnds(data: seq<byte>, a: nat, b: nat, limit: nat, from: nat)
    requires a <= b && b + limit <= |data| && from <= limit && from <= MAX_MATCH
    ensures Ends(data, a, b, limit, MatchLength(data, a, b, limit, from))
    decreases limit - from
  {
    hide MatchLength, Ends;
    MatchStep(data, a, b, limit, from);
    if from < limit && from < MAX_MATCH && data[a + from] == data[b + from] {
      MatchEnds(data, a, b, limit, from + 1);
    }
  }

  /** `stbiw__zlib_countm`. */
  method CountMatch(data: seq<byte>, a: nat, b: nat, limit: nat) returns (i: nat)
    requires a <= b && b + limit <= |data|
    ensures i == MatchLength(data, a, b, limit, 0)
  {
    i := 0;
    while i < limit && i < MAX_MATCH
      invariant i <= limit && i <= MAX_MATCH
      invariant MatchLength(data, a, b, limit, i) == MatchLength(data, a, b, limit, 0)
    {
      if data[a + i] != data[b + i] { break; }
      i := i + 1;
    }
  }

  /** A copy of `n` bytes from position `p` may stand for the bytes at `i`. */
  ghost predicate IsMatch(data: seq<byte>, p: nat, i: nat, n: nat) {
    && p < i && i - p < WINDOW && MIN_MATCH <= n <= MAX_MATCH && i + n <= |data|
    && data[p..p + n] == data[i..i + n]
  }

  predicate Earlier(chain: seq<nat>, i: nat) {
    forall j :: 0 <= j < |chain| ==> chain[j] < i
  }

  /** How far the string of this entry matches the one at `i`, 0 beyond the window. */
  function Reach(data: seq<byte>, p: nat, i: nat, window: nat): nat
    requires p <= i <= |data|
  {
    if p > i - window then MatchLength(data, p, i, |data| - i, 0) else 0
  }

  /** Of the entries within the window `loc` is the one that matches furthest, `best` bytes, and of
      several such the one added last; -1 when none matches three bytes. */
  ghost predicate Longest(data: seq<byte>, chain: seq<nat>, i: nat, best: nat, loc: int) {
    && i <= |data| && Earlier(chain, i)
    && (loc < 0 ==> best == MIN_MATCH && loc == -1 && forall j :: 0 <= j < |chain| ==> Reach(data, chain[j], i, WINDOW) < MIN_MATCH)
    && (loc >= 0 ==> best >= MIN_MATCH && exists j :: 0 <= j < |chain| && chain[j] == loc && Furthest(data, chain, i, best, j))
  }

  ghost predicate Furthest(data: seq<byte>, chain: seq<nat>, i: nat, best: nat, j: nat)
    requires i <= |data| && Earlier(chain, i) && j < |chain|
  {
    && Reach(data, chain[j], i, WINDOW) == best
    && (forall k :: 0 <= k < j ==> Reach(data, chain[k], i, WINDOW) <= best)
    && (forall k :: j < k < |chain| ==> Reach(data, chain[k], i, WINDOW) < best)
  }

  /** The longest match on the chain within the window; -1 when none has three bytes. */
  method FindMatch(data: seq<byte>, chain: seq<nat>, i: nat) returns (best: nat, loc: int)
    requires i <= |data| && Earlier(chain, i)
    ensures -1 <= loc
    ensures loc >= 0 ==> IsMatch(data, loc, i, best)
    ensures Longest(data, chain, i, best, loc)
  {
    best, loc := MIN_MATCH, -1;
    var j := 0;
    while j < |chain|
      invariant j <= |chain| && best >= MIN_MATCH && -1 <= loc
      invariant loc >= 0 ==> IsMatch(data, loc, i, best)
      invariant Longest(data, chain[..j], i, best, loc)
    {
      LongestNext(data, chain[..j], chain[j], i, best, loc);
      assert chain[..j] + [chain[j]] == chain[..j + 1];
      if chain[j] > i - WINDOW {
        var d := CountMatch(data, chain[j], i, |data| - i);
        if d >= best {
          best, loc := d, chain[j];
        }
      }
      j := j + 1;
    }
    assert chain[..j] == chain;
  }

  /** One more entry: it takes over when it matches as far. */
  lemma LongestNext(data: seq<byte>, chain: seq<nat>, p: nat, i: nat, best: nat, loc: int)
    requires Longest(data, chain, i, best, loc) && p < i && best >= MIN_MATCH
    ensures var d := Reach(data, p, i, WINDOW);
            if d >= best then Longest(data, chain + [p], i, d, p) else Longest(data, chain + [p], i, best, loc)
  {
    hide MatchLength, Reach;
    var all, d := chain + [p], Reach(data, p, i, WINDOW);
    assert forall k :: 0 <= k < |chain| ==> all[k] == chain[k];
    if d >= best {
      assert forall k :: 0 <= k < |chain| ==> Reach(data, chain[k], i, WINDOW) <= best;
      assert Furthest(data, all, i, d, |chain|);
    } else if loc >= 0 {
      var j :| 0 <= j < |chain| && chain[j] == loc && Furthest(data, chain, i, best, j);
      assert all[j] == loc && Furthest(data, all, i, best, j);
    }
  }

  ghost predicate Better(data: seq<byte>, chain: seq<nat>, i: nat, best: nat) {
    i <= |data| && Earlier(chain, i) && exists j :: 0 <= j < |chain| && Reach(data, chain[j], i, WINDOW) > best
  }

  /** Whether some entry of the next byte's chain matches more than `best` bytes. */
  method NextIsBetter(data: seq<byte>, chain: seq<nat>, i: nat, best: nat) returns (better: bool)
    requires i + 1 <= |data| && Earlier(chain, i + 1)
    ensures better <==> Better(data, chain, i + 1, best)
  {
    var j := 0;
    while j < |chain|
      invariant j <= |chain|
      invariant forall k :: 0 <= k < j ==> Reach(data, chain[k], i + 1, WINDOW) <= best
    {
      if chain[j] > i - (WINDOW - 1) {
        var e := CountMatch(data, chain[j], i + 1, |data| - i - 1);
        if e > best { return true; }
      }
      j := j + 1;
    }
    return false;
  }

  /** Every chain only holds positions before `i`. */
  ghost predicate ChainsBefore(table: array<seq<nat>>, i: nat)
    reads table
  {
    table.Length == ZHASH && forall h :: 0 <= h < ZHASH ==> Earlier(table[h], i)
  }

  function Pushed(chain: seq<nat>, i: nat, quality: nat): seq<nat> {
    (if |chain| == 2 * quality then chain[quality..] else chain) + [i]
  }

  /** Push position `i`, first dropping the older half of a full chain. */
  method PushPosition(table: array<seq<nat>>, h: nat, i: nat, quality: nat)
    requires ChainsBefore(table, i) && h < ZHASH
    modifies table
    ensures ChainsBefore(table, i + 1)
    ensures table[..] == old(table[..])[h := Pushed(old(table[h]), i, quality)]
  {
    var chain := table[h];
    if |chain| == 2 * quality { chain := chain[quality..]; }
    table[h] := chain + [i];
  }

  /** What the matcher decides at position `i`: a match to copy, or -1 for a literal.  It is the longest
      match `found` on the chain of `i`, unless the chain of the next position, with `i` added to its
      own chain by then, holds a longer one for that position. */
  method Search(data: seq<byte>, table: array<seq<nat>>, i: nat, quality: nat)
    returns (best: nat, loc: int, ghost found: int)
    requires i + 3 < |data| && ChainsBefore(table, i)
    modifies table
    ensures ChainsBefore(table, i + 1)
    ensures -1 <= loc && (loc >= 0 ==> IsMatch(data, loc, i, best))
    ensures var h, next := Bucket(data, i), table[Bucket(data, i + 1)];
            && table[..] == old(table[..])[h := Pushed(old(table[h]), i, quality)]
            && Longest(data, old(table[h]), i, best, found)
            && loc == if Better(data, next, i + 1, best) then -1 else found
  {
    hide MatchLength, Reach, Longest, IsMatch, ZHash, Better, Bucket, Earlier;
    var h := Bucket(data, i);
    best, loc := FindMatch(data, table[h], i);
    found := loc;
    PushPosition(table, h, i, quality);
    if loc >= 0 {
      h := Bucket(data, i + 1);
      var better := NextIsBetter(data, table[h], i, best);
      if better { loc := -1; }
    }
  }
}
