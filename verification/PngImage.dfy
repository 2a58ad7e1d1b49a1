/** Whole images: the filter choice of `stbi_write_png_to_mem`, the row loop of
    `stbi__create_png_image_raw`, and the two ends joined through the zlib stream. */
module PngImage {
  import opened Bits
  import opened PngFilter
  import opened ZlibBits
  import opened Deflate
  import opened Inflate
  import opened ZlibReader
  import opened ZlibWriter

  /** What section 9.2 sends for a row under a filter: there is exactly one such line. */
  ghost function FilteredLine(filter: nat, row: seq<byte>, up: seq<byte>, n: nat): (line: seq<byte>)
    requires filter < 5 && |row| == |up|
    ensures Filters(filter, row, up, n, line)
  {
    seq(|row|, i requires 0 <= i < |row| => (row[i] - Predicted(filter, row, up, i, n)) % 256)
  }

  lemma FilteredUnique(filter: nat, row: seq<byte>, up: seq<byte>, n: nat, line: seq<byte>)
    requires Filters(filter, row, up, n, line)
    ensures line == FilteredLine(filter, row, up, n)
  {
  }

  /** The byte read as a signed char, made positive. */
  function SignedAbs(b: byte): nat {
    if b < 128 then b else 256 - b
  }

  lemma SignedAbsIs(b: byte, s: int)
    requires -128 <= s < 128 && (s - b) % 256 == 0
    ensures SignedAbs(b) == Abs(s)
  {
  }

  function SumAbs(s: seq<byte>): nat {
    if s == [] then 0 else SumAbs(s[..|s| - 1]) + SignedAbs(s[|s| - 1])
  }

  /** The entropy estimate of a filtered line. */
  method Estimate(line: array<byte>) returns (est: nat)
    ensures est == SumAbs(line[..])
  {
    est := 0;
    var i := 0;
    while i < line.Length
      invariant i <= line.Length && est == SumAbs(line[..i])
    {
      assert line[..i + 1][..i] == line[..i];
      est := est + SignedAbs(line[i]);
      i := i + 1;
    }
    assert line[..i] == line[..];
  }

  const EST_MAX := 0x7fff_ffff

  /** The row above row `j`: zeros above the first. */
  function Above(rows: seq<seq<byte>>, j: nat, w: nat): seq<byte>
    requires j < |rows|
  {
    if j == 0 then Zeros(w) else rows[j - 1]
  }

  ghost function Cost(filter: nat, row: seq<byte>, up: seq<byte>, n: nat): nat
    requires filter < 5 && |row| == |up|
  {
    SumAbs(FilteredLine(filter, row, up, n))
  }

  /** `best` is the cheapest filter, the first of equals.  It is the cheapest as long as some estimate
      is below the largest signed integer the search starts from. */
  ghost predicate Cheapest(best: nat, row: seq<byte>, up: seq<byte>, n: nat)
    requires best < 5 && |row| == |up|
  {
    Cost(best, row, up, n) < EST_MAX ==>
      (forall f :: 0 <= f < 5 ==> Cost(best, row, up, n) <= Cost(f, row, up, n))
      && (forall f :: 0 <= f < best ==> Cost(best, row, up, n) < Cost(f, row, up, n))
  }

  /** Try every filter and keep the cheapest, the first of equals. */
  method ChooseFilter(row: seq<byte>, prior: seq<byte>, first: bool, n: nat, line: array<byte>) returns (best: nat)
    requires 0 < n <= |row| == line.Length && (!first ==> |prior| == |row|)
    modifies line
    ensures best < 5 && Cheapest(best, row, if first then Zeros(|row|) else prior, n)
  {
    ghost var up := if first then Zeros(|row|) else prior;
    best := 0;
    var bestVal, f := EST_MAX, 0;
    while f < 5
      invariant f <= 5 && best < 5
      invariant bestVal <= EST_MAX && (bestVal < EST_MAX ==> best < f && bestVal == Cost(best, row, up, n))
      invariant bestVal == EST_MAX ==> best == 0
      invariant forall k :: 0 <= k < f ==> bestVal <= Cost(k, row, up, n)
      invariant forall k :: 0 <= k < best ==> bestVal < Cost(k, row, up, n)
    {
      EncodeLine(row, prior, first, n, f, line);
      FilteredUnique(f, row, up, n, line[..]);
      var est := Estimate(line);
      if est < bestVal {
        best, bestVal := f, est;
      }
      f := f + 1;
    }
  }

  /** The filter of a row: the forced one, or else the cheapest. */
  ghost predicate Picked(filter: nat, force: int, row: seq<byte>, up: seq<byte>, n: nat)
    requires |row| == |up|
  {
    filter < 5 && if 0 <= force < 5 then filter == force else Cheapest(filter, row, up, n)
  }

  /** One row of the filtered image: the filter byte and its line. */
  method FilterRow(row: seq<byte>, prior: seq<byte>, first: bool, n: nat, force: int, line: array<byte>)
    returns (packet: seq<byte>)
    requires 0 < n <= |row| == line.Length && (!first ==> |prior| == |row|) && force < 5
    modifies line
    ensures |packet| == |row| + 1 && Picked(packet[0], force, row, if first then Zeros(|row|) else prior, n)
    ensures Filters(packet[0], row, if first then Zeros(|row|) else prior, n, packet[1..])
  {
    var filter := force;
    if force <= -1 {
      filter := ChooseFilter(row, prior, first, n, line);
    }
    EncodeLine(row, prior, first, n, filter, line);
    packet := [filter] + line[..];
  }

  predicate Rectangular(rows: seq<seq<byte>>, w: nat) {
    forall j :: 0 <= j < |rows| ==> |rows[j]| == w
  }

  /** Packet `j` is row `j`, filtered. */
  ghost predicate PacketFor(packet: seq<byte>, rows: seq<seq<byte>>, j: nat, w: nat, n: nat)
    requires j < |rows|
  {
    |packet| == w + 1 && packet[0] < 5 && Filters(packet[0], rows[j], Above(rows, j, w), n, packet[1..])
  }

  /** A forced filter of 5 or more is no force. */
  lemma PickedAny(filter: nat, force: int, row: seq<byte>, up: seq<byte>, n: nat)
    requires |row| == |up| && Picked(filter, if force >= 5 then -1 else force, row, up, n)
    ensures filter < 5 && Picked(filter, force, row, up, n)
  {
    hide Cheapest;
  }

  function Concat(parts: seq<seq<byte>>, i: nat): seq<byte>
    requires i <= |parts|
    decreases |parts| - i
  {
    if i == |parts| then [] else parts[i] + Concat(parts, i + 1)
  }

  lemma {:induction false} ConcatAppend(parts: seq<seq<byte>>, p: seq<byte>, i: nat)
    requires i <= |parts|
    ensures Concat(parts + [p], i) == Concat(parts, i) + p
    decreases |parts| - i
  {
    var all := parts + [p];
    if i == |parts| {
      assert Concat(all, i + 1) == [];
    } else {
      ConcatAppend(parts, p, i + 1);
      assert all[i] == parts[i];
      Assoc(parts[i], Concat(parts, i + 1), p);
    }
  }

  /** `filt` is the filtered image of `rows`. */
  ghost predicate FilteredImage(packets: seq<seq<byte>>, rows: seq<seq<byte>>, w: nat, n: nat, filt: seq<byte>) {
    && |packets| == |rows| && filt == Concat(packets, 0)
    && forall j :: 0 <= j < |rows| ==> PacketFor(packets[j], rows, j, w, n)
  }

  /** The row loop of `stbi_write_png_to_mem`, with its forced filter or -1 for the choice. */
  method FilterImage(rows: seq<seq<byte>>, w: nat, n: nat, force: int) returns (filt: seq<byte>, ghost packets: seq<seq<byte>>)
    requires 0 < n <= w && Rectangular(rows, w)
    ensures FilteredImage(packets, rows, w, n, filt) && |filt| == (w + 1) * |rows|
    ensures RowsDone(packets, rows, w, n, force)
  {
    assert RowsDone([], rows, w, n, force);
    hide Picked, Filters, RowsDone;
    var forced := if force >= 5 then -1 else force;
    var line := new byte[w];
    filt, packets := [], [];
    var j := 0;
    while j < |rows|
      invariant j <= |rows| && |packets| == j && filt == Concat(packets, 0)
      invariant RowsDone(packets, rows, w, n, force)
    {
      var packet := FilterRow(rows[j], if j == 0 then [] else rows[j - 1], j == 0, n, forced, line);
      PickedAny(packet[0], force, rows[j], Above(rows, j, w), n);
      RowDone(packets, packet, rows, w, n, force);
      ConcatAppend(packets, packet, 0);
      hide Concat;
      filt := filt + packet;
      packets := packets + [packet];
      j := j + 1;
    }
    AllDone(packets, rows, w, n, force);
  }

  /** The packets so far are the first rows, each under its filter. */
  ghost predicate RowsDone(packets: seq<seq<byte>>, rows: seq<seq<byte>>, w: nat, n: nat, force: int) {
    |packets| <= |rows| && forall j :: 0 <= j < |packets| ==> PickedPacket(packets[j], rows, j, w, n, force)
  }

  ghost predicate PickedPacket(packet: seq<byte>, rows: seq<seq<byte>>, j: nat, w: nat, n: nat, force: int)
    requires j < |rows|
  {
    PacketFor(packet, rows, j, w, n) && |rows[j]| == |Above(rows, j, w)|
    && Picked(packet[0], force, rows[j], Above(rows, j, w), n)
  }

  lemma RowDone(packets: seq<seq<byte>>, packet: seq<byte>, rows: seq<seq<byte>>, w: nat, n: nat, force: int)
    requires RowsDone(packets, rows, w, n, force) && |packets| < |rows|
    requires PickedPacket(packet, rows, |packets|, w, n, force)
    ensures RowsDone(packets + [packet], rows, w, n, force)
  {
    hide PickedPacket;
  }

  lemma AllDone(packets: seq<seq<byte>>, rows: seq<seq<byte>>, w: nat, n: nat, force: int)
    requires RowsDone(packets, rows, w, n, force) && |packets| == |rows|
    ensures FilteredImage(packets, rows, w, n, Concat(packets, 0)) && |Concat(packets, 0)| == (w + 1) * |rows|
  {
    hide Picked, Filters, Concat, Above;
    RowsLengthIs(|rows|, w);
    PacketsLength(packets, rows, w, n, 0);
  }

  /** The filtered size of `h` rows, one row at a time. */
  function RowsLength(h: nat, w: nat): nat {
    if h == 0 then 0 else w + 1 + RowsLength(h - 1, w)
  }

  lemma {:induction false} RowsLengthIs(h: nat, w: nat)
    ensures RowsLength(h, w) == (w + 1) * h
  {
    if h > 0 {
      RowsLengthIs(h - 1, w);
      assert (w + 1) * h == (w + 1) * (h - 1) + (w + 1);
    }
  }

  /** What is left of the raw data from row `j` on. */
  ghost predicate RawFrom(packets: seq<seq<byte>>, raw: seq<byte>, pos: nat, j: nat, slack: seq<byte>) {
    j <= |packets| && pos <= |raw| && raw[pos..] == Concat(packets, j) + slack
  }

  lemma TakePacket(packets: seq<seq<byte>>, raw: seq<byte>, pos: nat, j: nat, slack: seq<byte>, w: nat)
    requires RawFrom(packets, raw, pos, j, slack) && j < |packets| && |packets[j]| == w + 1
    ensures pos + w + 1 <= |raw| && raw[pos] == packets[j][0] && raw[pos + 1..pos + 1 + w] == packets[j][1..]
    ensures RawFrom(packets, raw, pos + w + 1, j + 1, slack)
  {
    Assoc(packets[j], Concat(packets, j + 1), slack);
    var rest := raw[pos..];
    assert rest[..w + 1] == packets[j] && rest[w + 1..] == Concat(packets, j + 1) + slack;
    assert raw[pos + w + 1..] == rest[w + 1..];
    assert raw[pos + 1..pos + 1 + w] == rest[..w + 1][1..];
  }

  /** One row: its filter byte, then the row rebuilt into `cur`. */
  method ReadRow(raw: seq<byte>, pos: nat, w: nat, n: nat, prior: array<byte>, cur: array<byte>, first: bool,
                 ghost expected: bool, ghost row: seq<byte>)
    returns (ok: bool)
    requires 0 < n <= w && pos + w + 1 <= |raw| && prior.Length == cur.Length == w && prior != cur
    requires expected ==> |row| == w && raw[pos] < 5
                          && Filters(raw[pos], row, if first then Zeros(w) else prior[..], n, raw[pos + 1..pos + 1 + w])
    modifies cur
    ensures expected ==> ok && cur[..] == row
  {
    var filter := raw[pos];
    if filter > 4 { return false; }
    var line := raw[pos + 1..pos + 1 + w];
    ghost var above := if first then Zeros(w) else prior[..];
    UnfilterRow(line, if first then [] else prior[..], first, n, filter, cur);
    if expected { UnfilterFilters(filter, row, above, n, line, cur[..]); }
    return true;
  }

  /** The raw data is the filtered image of `rows`, perhaps with more behind it. */
  ghost predicate RawImage(packets: seq<seq<byte>>, rows: seq<seq<byte>>, w: nat, n: nat, raw: seq<byte>, slack: seq<byte>) {
    Rectangular(rows, w) && FilteredImage(packets, rows, w, n, Concat(packets, 0)) && raw == Concat(packets, 0) + slack
  }

  ghost predicate RowsRead(packets: seq<seq<byte>>, rows: seq<seq<byte>>, w: nat, n: nat, raw: seq<byte>, slack: seq<byte>,
                           pos: nat, out: seq<seq<byte>>) {
    RawImage(packets, rows, w, n, raw, slack) && |out| <= |rows| && out == rows[..|out|]
    && RawFrom(packets, raw, pos, |out|, slack)
  }

  lemma RowExpected(packets: seq<seq<byte>>, rows: seq<seq<byte>>, w: nat, n: nat, raw: seq<byte>, slack: seq<byte>,
                    pos: nat, out: seq<seq<byte>>)
    requires RowsRead(packets, rows, w, n, raw, slack, pos, out) && |out| < |rows|
    ensures var j := |out|;
            pos + w + 1 <= |raw| && |rows[j]| == w && raw[pos] < 5
            && Filters(raw[pos], rows[j], if j == 0 then Zeros(w) else out[j - 1], n, raw[pos + 1..pos + 1 + w])
            && RowsRead(packets, rows, w, n, raw, slack, pos + w + 1, out + [rows[j]])
  {
    var j := |out|;
    assert PacketFor(packets[j], rows, j, w, n);
    TakePacket(packets, raw, pos, j, slack, w);
    assert out + [rows[j]] == rows[..j + 1];
  }

  lemma RectangularMore(rows: seq<seq<byte>>, row: seq<byte>, w: nat)
    requires Rectangular(rows, w) && |row| == w
    ensures Rectangular(rows + [row], w)
  {
  }

  /** The row loop of `stbi__create_png_image_raw`: the two line buffers take turns as
      current and prior row. */
  method UnfilterRows(raw: seq<byte>, h: nat, w: nat, n: nat, ghost expected: bool,
                      ghost packets: seq<seq<byte>>, ghost rows: seq<seq<byte>>, ghost slack: seq<byte>)
    returns (ok: bool, out: seq<seq<byte>>)
    requires 0 < n <= w && RowsLength(h, w) <= |raw|
    requires expected ==> RawImage(packets, rows, w, n, raw, slack) && |rows| == h
    ensures expected ==> ok && out == rows
    ensures ok ==> |out| == h && Rectangular(out, w)
  {
    out := [];
    var cur := new byte[w];
    var prior := new byte[w];
    var pos := 0;
    assert raw[0..] == raw && Rectangular(out, w);
    assert expected ==> RowsRead(packets, rows, w, n, raw, slack, pos, out);
    hide RowsRead, Filters, RawImage, Rectangular, Zeros;
    while |out| < h
      invariant |out| <= h && Rectangular(out, w)
      invariant cur.Length == prior.Length == w && cur != prior && fresh(cur) && fresh(prior)
      invariant pos + RowsLength(h - |out|, w) <= |raw|
      invariant |out| > 0 ==> prior[..] == out[|out| - 1]
      invariant expected ==> RowsRead(packets, rows, w, n, raw, slack, pos, out)
      decreases h - |out|
    {
      if expected { RowExpected(packets, rows, w, n, raw, slack, pos, out); }
      ok := ReadRow(raw, pos, w, n, prior, cur, out == [], expected, if expected then rows[|out|] else []);
      if !ok { return false, out; }
      RectangularMore(out, cur[..], w);
      out := out + [cur[..]];
      cur, prior := prior, cur;
      pos := pos + w + 1;
    }
    if expected { AllRead(packets, rows, w, n, raw, slack, pos, out); }
    ok := true;
  }

  lemma AllRead(packets: seq<seq<byte>>, rows: seq<seq<byte>>, w: nat, n: nat, raw: seq<byte>, slack: seq<byte>,
                pos: nat, out: seq<seq<byte>>)
    requires RowsRead(packets, rows, w, n, raw, slack, pos, out) && |out| == |rows|
    ensures out == rows
  {
  }

  /** `stbi__create_png_image_raw` for eight-bit samples without an added alpha channel. */
  method UnfilterImage(raw: seq<byte>, h: nat, w: nat, n: nat, ghost expected: bool,
                       ghost packets: seq<seq<byte>>, ghost rows: seq<seq<byte>>, ghost slack: seq<byte>)
    returns (ok: bool, out: seq<seq<byte>>)
    requires 0 < n <= w
    requires expected ==> RawImage(packets, rows, w, n, raw, slack) && |rows| == h
    ensures expected ==> ok && out == rows
    ensures ok ==> |out| == h && Rectangular(out, w) && (w + 1) * h <= |raw|
  {
    RowsLengthIs(h, w);
    if expected { PacketsLength(packets, rows, w, n, 0); }
    if |raw| < (w + 1) * h { return false, []; }
    ok, out := UnfilterRows(raw, h, w, n, expected, packets, rows, slack);
  }

  lemma {:induction false} PacketsLength(packets: seq<seq<byte>>, rows: seq<seq<byte>>, w: nat, n: nat, i: nat)
    requires |packets| == |rows| && i <= |packets|
    requires forall j :: 0 <= j < |rows| ==> PacketFor(packets[j], rows, j, w, n)
    ensures |Concat(packets, i)| == RowsLength(|rows| - i, w)
    decreases |packets| - i
  {
    if i < |packets| {
      PacketsLength(packets, rows, w, n, i + 1);
      assert PacketFor(packets[i], rows, i, w, n);
    }
  }

  lemma FilteredRaw(packets: seq<seq<byte>>, rows: seq<seq<byte>>, w: nat, n: nat, filt: seq<byte>)
    requires Rectangular(rows, w) && FilteredImage(packets, rows, w, n, filt)
    ensures RawImage(packets, rows, w, n, filt, [])
  {
    hide Concat, PacketFor, Rectangular;
    assert filt == Concat(packets, 0) + [];
  }

  /** Filtering, compressing, inflating and unfiltering an image gives back its pixels, for every
      size, every number of bytes per pixel, and every forced or chosen filter. */
  method ImageRoundTrip(rows: seq<seq<byte>>, w: nat, n: nat, force: int, quality: int, guess: nat)
    returns (ok: bool, out: seq<seq<byte>>)
    requires 0 < n <= w && rows != [] && Rectangular(rows, w) && (w + 1) * |rows| < 0x8000_0000
    requires 1 <= guess <= UINT_MAX
    ensures ok && out == rows
  {
    var filt, packed, raw;
    ghost var packets, pieces, more;
    filt, packets := FilterImage(rows, w, n, force);
    FilteredRaw(packets, rows, w, n, filt);
    hide FilteredImage, RawImage, Rectangular, RowsDone;
    packed, pieces, more := Compress(filt, quality);
    assert packed[0] == 0x78 && packed[1] == 0x5e && Body(packed, true) == packed[2..];
    RoomBounds(guess, true);
    ghost var got, left;
    ok, raw, got, left := DoZlib(packed, guess, true, true, true, pieces, filt, more);
    hide Body;
    ok, out := UnfilterImage(raw, |rows|, w, n, true, packets, rows, []);
  }
}
