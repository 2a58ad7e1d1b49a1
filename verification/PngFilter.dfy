/** PNG row filtering (PNG section 9): the writer's filters, the reader's inverse, and
    the two formulations of the Paeth predictor. */
module PngFilter {
  import opened Bits

  function Abs(x: int): nat {
    if x < 0 then -x else x
  }

  /** `stbiw__paeth`: the neighbour closest to a + b - c, ties in the order a, b, c. */
  function Paeth(a: int, b: int, c: int): int {
    var p := a + b - c;
    if Abs(p - a) <= Abs(p - b) && Abs(p - a) <= Abs(p - c) then a
    else if Abs(p - b) <= Abs(p - c) then b
    else c
  }

  /** `stbi__paeth`: the branch-free form. */
  function PaethFast(a: int, b: int, c: int): int {
    var thresh := c * 3 - (a + b);
    var lo := if a < b then a else b;
    var hi := if a < b then b else a;
    var t0 := if hi <= thresh then lo else c;
    if thresh <= lo then hi else t0
  }

  lemma PaethAgree(a: int, b: int, c: int)
    ensures PaethFast(a, b, c) == Paeth(a, b, c)
  {
  }

  /** The filters of section 9.2, from the bytes to the left, above and above left. */
  function Predict(filter: nat, a: int, b: int, c: int): (p: int)
    requires 0 <= a < 256 && 0 <= b < 256 && 0 <= c < 256
    requires filter < 5
    ensures 0 <= p < 256
  {
    if filter == 0 then 0
    else if filter == 1 then a
    else if filter == 2 then b
    else if filter == 3 then (a + b) / 2
    else Paeth(a, b, c)
  }

  /** The byte one pixel to the left, zero before the row starts. */
  function LeftOf(row: seq<byte>, i: nat, n: nat): byte
    requires i < |row|
  {
    if i < n || n == 0 then 0 else row[i - n]
  }

  /** The prediction for byte `i` of `row` under the row `up`. */
  function Predicted(filter: nat, row: seq<byte>, up: seq<byte>, i: nat, n: nat): int
    requires filter < 5 && i < |row| == |up|
  {
    Predict(filter, LeftOf(row, i, n), up[i], LeftOf(up, i, n))
  }

  /** `line` is `row` filtered: what section 9.2 sends for it. */
  ghost predicate Filters(filter: nat, row: seq<byte>, up: seq<byte>, n: nat, line: seq<byte>) {
    && filter < 5 && |row| == |up| == |line|
    && forall i :: 0 <= i < |row| ==> line[i] == (row[i] - Predicted(filter, row, up, i, n)) % 256
  }

  /** `cur` is rebuilt from `line`: section 9.2 read backwards. */
  ghost predicate Unfilters(filter: nat, line: seq<byte>, up: seq<byte>, n: nat, cur: seq<byte>) {
    && filter < 5 && |cur| == |up| == |line|
    && forall i :: 0 <= i < |cur| ==> cur[i] == (line[i] + Predicted(filter, cur, up, i, n)) % 256
  }

  lemma ModCancel(x: int, p: int)
    requires 0 <= x < 256
    ensures ((x - p) % 256 + p) % 256 == x
  {
  }

  lemma {:induction false} SameUpTo(filter: nat, row: seq<byte>, up: seq<byte>, n: nat, line: seq<byte>, cur: seq<byte>, k: nat)
    requires 0 < n && Filters(filter, row, up, n, line) && Unfilters(filter, line, up, n, cur) && k <= |row|
    ensures cur[..k] == row[..k]
  {
    if k > 0 {
      SameUpTo(filter, row, up, n, line, cur, k - 1);
      var i := k - 1;
      assert LeftOf(cur, i, n) == LeftOf(row, i, n) by {
        if i >= n { assert cur[i - n] == cur[..i][i - n] == row[..i][i - n]; }
      }
      ModCancel(row[i], Predicted(filter, row, up, i, n));
      assert cur[..k] == cur[..i] + [cur[i]] && row[..k] == row[..i] + [row[i]];
    }
  }

  /** Filtering is undone exactly: there is one row that unfilters from a line, the one filtered. */
  lemma UnfilterFilters(filter: nat, row: seq<byte>, up: seq<byte>, n: nat, line: seq<byte>, cur: seq<byte>)
    requires 0 < n && Filters(filter, row, up, n, line) && Unfilters(filter, line, up, n, cur)
    ensures cur == row
  {
    SameUpTo(filter, row, up, n, line, cur, |row|);
    assert cur[..|row|] == cur && row[..|row|] == row;
  }

  // ---------------------------------------------------------------- the writer

  const MAPPING: seq<nat> := [0, 1, 2, 3, 4]
  const FIRSTMAP: seq<nat> := [0, 1, 0, 5, 6]

  /** The switch of the first loop, for the bytes of the first pixel. */
  function FirstByte(kind: nat, z: seq<byte>, up: seq<byte>, i: nat): int
    requires 1 <= kind <= 6 && i < |z| && (2 <= kind <= 4 ==> i < |up|)
  {
    if kind == 2 then z[i] as int - up[i] as int
    else if kind == 3 then z[i] as int - up[i] as int / 2
    else if kind == 4 then z[i] as int - Paeth(0, up[i], 0)
    else z[i]
  }

  /** The loops for the rest of the row. */
  function RestByte(kind: nat, z: seq<byte>, up: seq<byte>, i: nat, n: nat): int
    requires 1 <= kind <= 6 && n <= i < |z| && (2 <= kind <= 4 ==> i < |up|)
  {
    if kind == 1 then z[i] as int - z[i - n] as int
    else if kind == 2 then z[i] as int - up[i] as int
    else if kind == 3 then z[i] as int - (z[i - n] as int + up[i] as int) / 2
    else if kind == 4 then z[i] as int - Paeth(z[i - n], up[i], up[i - n])
    else if kind == 5 then z[i] as int - z[i - n] as int / 2
    else z[i] as int - Paeth(z[i - n], 0, 0)
  }

  /** `stbiw__encode_png_line`.  In the first row (`prior` empty) the kinds that look up are
      replaced; the line is the one section 9.2 asks for with a zero row above. */
  method EncodeLine(z: seq<byte>, prior: seq<byte>, first: bool, n: nat, filter: nat, line: array<byte>)
    requires filter < 5 && 0 < n <= |z| == line.Length
    requires !first ==> |prior| == |z|
    modifies line
    ensures Filters(filter, z, if first then Zeros(|z|) else prior, n, line[..])
  {
    ghost var up := if first then Zeros(|z|) else prior;
    var kind := if first then FIRSTMAP[filter] else MAPPING[filter];
    if kind == 0 {
      CopyLine(z, line);
      ZeroKind(z, up, n, filter, first, line[..]);
      return;
    }
    var i := 0;
    while i < n
      invariant i <= n
      invariant forall k :: 0 <= k < i ==> line[k] == FirstByte(kind, z, prior, k) % 256
    {
      line[i] := FirstByte(kind, z, prior, i) % 256;
      i := i + 1;
    }
    while i < |z|
      invariant n <= i <= |z|
      invariant forall k :: 0 <= k < n ==> line[k] == FirstByte(kind, z, prior, k) % 256
      invariant forall k :: n <= k < i ==> line[k] == RestByte(kind, z, prior, k, n) % 256
    {
      line[i] := RestByte(kind, z, prior, i, n) % 256;
      i := i + 1;
    }
    forall k | 0 <= k < |z| ensures line[k] == (z[k] - Predicted(filter, z, up, k, n)) % 256 {
      KindPredicts(z, prior, first, n, filter, k);
    }
  }

  function Zeros(w: nat): (s: seq<byte>)
    ensures |s| == w && forall i :: 0 <= i < w ==> s[i] == 0
  {
    seq(w, _ => 0)
  }

  method CopyLine(z: seq<byte>, line: array<byte>)
    requires |z| == line.Length
    modifies line
    ensures line[..] == z
  {
    forall i | 0 <= i < |z| { line[i] := z[i]; }
  }

  lemma ZeroKind(z: seq<byte>, up: seq<byte>, n: nat, filter: nat, first: bool, line: seq<byte>)
    requires filter < 5 && |z| == |up| && line == z
    requires (if first then FIRSTMAP[filter] else MAPPING[filter]) == 0
    requires first ==> up == Zeros(|z|)
    ensures Filters(filter, z, up, n, line)
  {
  }

  /** Each kind computes the standard's prediction; the first row's kinds do so for a zero row. */
  lemma KindPredicts(z: seq<byte>, prior: seq<byte>, first: bool, n: nat, filter: nat, i: nat)
    requires filter < 5 && 0 < n && i < |z| && (!first ==> |prior| == |z|)
    ensures var kind := if first then FIRSTMAP[filter] else MAPPING[filter];
            var up := if first then Zeros(|z|) else prior;
            kind != 0 ==> z[i] - Predicted(filter, z, up, i, n)
                          == if i < n then FirstByte(kind, z, prior, i) else RestByte(kind, z, prior, i, n)
  {
    if first && FIRSTMAP[filter] != 0 { FirstRowKinds(z, n, filter, i); }
  }

  lemma FirstRowKinds(z: seq<byte>, n: nat, filter: nat, i: nat)
    requires filter < 5 && 0 < n && i < |z| && FIRSTMAP[filter] != 0
    ensures z[i] - Predicted(filter, z, Zeros(|z|), i, n)
         == if i < n then FirstByte(FIRSTMAP[filter], z, [], i) else RestByte(FIRSTMAP[filter], z, [], i, n)
  {
  }

  // ---------------------------------------------------------------- the reader

  const AVG_FIRST := 5
  const FIRST_ROW_FILTER: seq<nat> := [0, 1, 0, AVG_FIRST, 1]

  /** What the reader adds to byte `k`; `left` is the rebuilt byte one pixel back. */
  function Addend(kind: nat, left: byte, prior: seq<byte>, k: nat, n: nat): int
    requires kind <= 5 && (2 <= kind <= 4 ==> k < |prior|)
  {
    if kind == 0 then 0
    else if k < n || n == 0 then
      if kind == 2 || kind == 4 then prior[k]
      else if kind == 3 then prior[k] as int / 2
      else 0
    else if kind == 1 then left
    else if kind == 2 then prior[k]
    else if kind == 3 then (prior[k] as int + left as int) / 2
    else if kind == 4 then PaethFast(left, prior[k], prior[k - n])
    else left as int / 2
  }

  lemma AddendPredicts(cur: seq<byte>, prior: seq<byte>, first: bool, n: nat, filter: nat, k: nat)
    requires filter < 5 && 0 < n && k < |cur| && (!first ==> |prior| == |cur|)
    ensures var kind := if first then FIRST_ROW_FILTER[filter] else filter;
            var up := if first then Zeros(|cur|) else prior;
            Addend(kind, LeftOf(cur, k, n), prior, k, n) == Predicted(filter, cur, up, k, n)
  {
    if !first {
      PaethAgree(LeftOf(cur, k, n), prior[k], LeftOf(prior, k, n));
    }
  }

  /** The filter switch of `stbi__create_png_image_raw` for one row. */
  method UnfilterRow(raw: seq<byte>, prior: seq<byte>, first: bool, n: nat, filter: nat, cur: array<byte>)
    requires filter < 5 && 0 < n <= |raw| == cur.Length && (!first ==> |prior| == |raw|)
    modifies cur
    ensures Unfilters(filter, raw, if first then Zeros(|raw|) else prior, n, cur[..])
  {
    var kind := if first then FIRST_ROW_FILTER[filter] else filter;
    var k := 0;
    while k < |raw|
      invariant k <= |raw|
      invariant forall i :: 0 <= i < k ==> RowByte(raw, prior, cur[..], kind, n, i)
    {
      ghost var was := cur[..];
      cur[k] := (raw[k] + Addend(kind, if k < n then 0 else cur[k - n], prior, k, n)) % 256;
      forall i | 0 <= i <= k ensures RowByte(raw, prior, cur[..], kind, n, i) {
        assert i < k ==> RowByte(raw, prior, was, kind, n, i);
        assert LeftOf(cur[..], i, n) == LeftOf(was, i, n);
      }
      k := k + 1;
    }
    ghost var up := if first then Zeros(|raw|) else prior;
    forall i | 0 <= i < |raw| ensures cur[..][i] == (raw[i] + Predicted(filter, cur[..], up, i, n)) % 256 {
      assert RowByte(raw, prior, cur[..], kind, n, i);
      AddendPredicts(cur[..], prior, first, n, filter, i);
    }
  }

  ghost predicate RowByte(raw: seq<byte>, prior: seq<byte>, cur: seq<byte>, kind: nat, n: nat, i: nat)
    requires kind <= 5 && i < |raw| == |cur| && (2 <= kind <= 4 ==> i < |prior|)
  {
    cur[i] == (raw[i] + Addend(kind, LeftOf(cur, i, n), prior, i, n)) % 256
  }
}
