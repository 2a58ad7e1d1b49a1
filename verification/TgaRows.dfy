/** Targa run-length rows: the packet loop of `stbi_write_tga_core` in `ui/stb_image_write.h` and the
    pixel loop of `stbi__tga_load` in `canvas/stb_image.h`. */
module TgaRows {
  import opened RunLength

  /** A pixel's bytes, in the order of the file. */
  type Pixel = seq<byte>

  predicate Sized(ps: seq<Pixel>, comp: nat) {
    forall k :: 0 <= k < |ps| ==> |ps[k]| == comp
  }

  /** A packet: 2 to 128 repeats of a pixel, or 1 to 128 pixels. */
  predicate TgaPacket(p: Packet<Pixel>, comp: nat) {
    match p
    case Run(n, v) => 2 <= n <= 128 && |v| == comp
    case Raw(vs) => 1 <= |vs| <= 128 && Sized(vs, comp)
  }

  function Flatten(vs: seq<Pixel>): seq<byte> {
    if vs == [] then [] else vs[0] + Flatten(vs[1..])
  }

  /** The header byte, with the high bit for a repeat, then the pixels. */
  function TgaBytes(p: Packet<Pixel>): seq<byte> {
    match p
    case Run(n, v) => [(n + 127) % 256] + v
    case Raw(vs) => [(|vs| + 255) % 256] + Flatten(vs)
  }

  function TgaStream(ps: seq<Packet<Pixel>>): seq<byte> {
    if ps == [] then [] else TgaStream(ps[..|ps| - 1]) + TgaBytes(ps[|ps| - 1])
  }

  ghost predicate TgaPackets(ps: seq<Packet<Pixel>>, comp: nat) {
    forall p :: p in ps ==> TgaPacket(p, comp)
  }

  // ---------------------------------------------------------------- writing

  /** The length of the packet at `i`, and whether its pixels are written one by one.  What is not
      repeated ends before two pixels that are equal at a distance of two. */
  method FindPacket(row: seq<Pixel>, i: nat) returns (len: nat, diff: bool)
    requires i < |row|
    ensures 1 <= len <= 128 && i + len <= |row|
    ensures !diff ==> len >= 2 && forall k :: i <= k < i + len ==> row[k] == row[i]
  {
    diff, len := true, 1;
    if i + 1 < |row| {
      len := 2;
      diff := row[i] != row[i + 1];
      var k := i + 2;
      if diff {
        var prev := i;
        while k < |row| && len < 128
          invariant i + 2 <= k <= |row| && len == k - i && len <= 128 && prev + 2 == k
        {
          if row[prev] == row[k] {
            len := len - 1;
            break;
          }
          prev, len, k := prev + 1, len + 1, k + 1;
        }
      } else {
        while k < |row| && len < 128
          invariant i + 2 <= k <= |row| && len == k - i && len <= 128
          invariant forall j :: i <= j < k ==> row[j] == row[i]
        {
          if row[k] != row[i] { break; }
          len, k := len + 1, k + 1;
        }
      }
    }
  }

  lemma TgaAppend(ps: seq<Packet<Pixel>>, p: Packet<Pixel>)
    ensures TgaStream(ps + [p]) == TgaStream(ps) + TgaBytes(p)
  {
    assert (ps + [p])[..|ps|] == ps;
  }

  method WritePixels(out: seq<byte>, vs: seq<Pixel>) returns (now: seq<byte>)
    ensures now == out + Flatten(vs)
  {
    now := out;
    for k := 0 to |vs|
      invariant now + Flatten(vs[k..]) == out + Flatten(vs)
    {
      assert vs[k..][1..] == vs[k + 1..];
      Regroup(now, vs[k], Flatten(vs[k + 1..]), []);
      now := now + vs[k];
    }
  }

  /** The packet at `i`: its bytes, and how many pixels it takes. */
  method EncodePacket(row: seq<Pixel>, i: nat, comp: nat) returns (bytes: seq<byte>, len: nat, ghost p: Packet<Pixel>)
    requires Sized(row, comp) && i < |row|
    ensures len >= 1 && i + len <= |row|
    ensures TgaPacket(p, comp) && Values(p) == row[i..i + len] && bytes == TgaBytes(p)
  {
    var diff;
    len, diff := FindPacket(row, i);
    var run := row[i..i + len];
    if diff {
      bytes := WritePixels([len - 1], run);
      p := Raw(run);
    } else {
      bytes := [len + 127] + row[i];
      p := Run(len, row[i]);
      assert Values(p) == run;
    }
  }

  /** Wherever `out` stands, the reader makes `row` of it and goes on behind it. */
  ghost predicate RowReadsBack(out: seq<byte>, row: seq<Pixel>, comp: nat) {
    forall pre: seq<byte>, post: seq<byte>, n: nat ::
      Pixels(pre + out + post, comp, Cursor(|pre|, 0, false, []), |row| + n)
      == row + Pixels(pre + out + post, comp, Cursor(|pre + out|, 0, false, []), n)
  }

  /** One row: what is written is a list of packets that expand to it, and the reader finds the row again. */
  method EncodeRow(row: seq<Pixel>, comp: nat) returns (out: seq<byte>, ghost ps: seq<Packet<Pixel>>)
    requires Sized(row, comp)
    ensures TgaPackets(ps, comp) && out == TgaStream(ps) && Expand(ps) == row
    ensures RowReadsBack(out, row, comp)
  {
    out, ps := [], [];
    hide TgaPacket, TgaBytes, Values, RowReadsBack;
    var i: nat := 0;
    while i < |row|
      invariant 0 <= i <= |row|
      invariant TgaPackets(ps, comp) && out == TgaStream(ps) && Expand(ps) == row[..i]
      decreases |row| - i
    {
      var bytes, len, p := EncodePacket(row, i, comp);
      assert row[..i] + row[i..i + len] == row[..i + len];
      TgaAppend(ps, p);
      ExpandAppend(ps, p);
      hide TgaStream, Expand;
      out, ps, i := out + bytes, ps + [p], i + len;
    }
    assert row[..|row|] == row;
    RowBack(ps, row, comp);
  }

  lemma RowBack(ps: seq<Packet<Pixel>>, row: seq<Pixel>, comp: nat)
    requires TgaPackets(ps, comp) && Expand(ps) == row
    ensures RowReadsBack(TgaStream(ps), row, comp)
  {
    hide TgaPackets, TgaStream, Expand, Pixels;
    var out := TgaStream(ps);
    forall pre: seq<byte>, post: seq<byte>, n: nat
      ensures Pixels(pre + out + post, comp, Cursor(|pre|, 0, false, []), |row| + n)
              == row + Pixels(pre + out + post, comp, Cursor(|pre + out|, 0, false, []), n)
    {
      RowsBack(pre, comp, ps, post, n);
    }
  }

  // ---------------------------------------------------------------- reading

  /** Where the reader stands: pixels left of the packet, whether they repeat, and the last pixel. */
  datatype Cursor = Cursor(pos: nat, count: nat, repeating: bool, raw: Pixel)

  /** One turn of the reader's loop; its `raw` is the pixel. */
  function Turn(s: seq<byte>, comp: nat, c: Cursor): Cursor {
    if c.count == 0 then
      var cmd := At(s, c.pos);
      Cursor(c.pos + 1 + comp, cmd % 128, cmd >= 128, Bytes(s, c.pos + 1, comp))
    else if !c.repeating then Cursor(c.pos + comp, c.count - 1, false, Bytes(s, c.pos, comp))
    else c.(count := c.count - 1)
  }

  function Pixels(s: seq<byte>, comp: nat, c: Cursor, n: nat): seq<Pixel>
    decreases n
  {
    if n == 0 then [] else [Turn(s, comp, c).raw] + Pixels(s, comp, Turn(s, comp, c), n - 1)
  }

  /** The pixel loop of `stbi__tga_load` on a run-length image without a palette. */
  method ReadPixels(s: seq<byte>, start: nat, comp: nat, n: nat) returns (pixels: seq<Pixel>)
    ensures pixels == Pixels(s, comp, Cursor(start, 0, false, []), n)
  {
    var pos: nat, count: nat, repeating: bool, raw: Pixel := start, 0, false, [];
    pixels := [];
    var read := true;
    for i := 0 to n
      invariant pixels + Pixels(s, comp, Cursor(pos, count, repeating, raw), n - i) == Pixels(s, comp, Cursor(start, 0, false, []), n)
    {
      ghost var was := Cursor(pos, count, repeating, raw);
      if count == 0 {
        var cmd := At(s, pos);
        pos := pos + 1;
        count := 1 + cmd % 128;
        repeating := cmd >= 128;
        read := true;
      } else if !repeating {
        read := true;
      } else {
        read := false;
      }
      if read {
        raw := Bytes(s, pos, comp);
        pos := pos + comp;
        read := false;
      }
      count := count - 1;
      hide Bytes, At;
      assert Cursor(pos, count, repeating, raw) == Turn(s, comp, was);
      Regroup3(pixels, [raw], Pixels(s, comp, Turn(s, comp, was), n - i - 1));
      pixels := pixels + [raw];
    }
    assert pixels + [] == pixels;
  }

  lemma Regroup3<T>(a: seq<T>, b: seq<T>, c: seq<T>)
    ensures a + (b + c) == (a + b) + c
  {
  }

  // ---------------------------------------------------------------- the rows come back

  /** Between packets it does not matter what the last one was. */
  lemma Afresh(s: seq<byte>, comp: nat, c: Cursor, n: nat)
    requires c.count == 0
    ensures Pixels(s, comp, c, n) == Pixels(s, comp, Cursor(c.pos, 0, false, []), n)
  {
    hide Bytes, At;
    if n > 0 {
      assert Turn(s, comp, c) == Turn(s, comp, Cursor(c.pos, 0, false, []));
    }
  }

  /** The rest of a repeat. */
  lemma {:induction false} RepeatsBack(s: seq<byte>, comp: nat, pos: nat, k: nat, v: Pixel, n: nat)
    ensures Pixels(s, comp, Cursor(pos, k, true, v), k + n) == Repeat<Pixel>(v, k) + Pixels(s, comp, Cursor(pos, 0, false, []), n)
  {
    if k == 0 {
      Afresh(s, comp, Cursor(pos, 0, true, v), n);
      assert Repeat<Pixel>(v, 0) == [];
    } else {
      RepeatsBack(s, comp, pos, k - 1, v, n);
      assert Turn(s, comp, Cursor(pos, k, true, v)) == Cursor(pos, k - 1, true, v);
      assert Repeat<Pixel>(v, k) == [v] + Repeat<Pixel>(v, k - 1);
      Regroup3([v], Repeat<Pixel>(v, k - 1), Pixels(s, comp, Cursor(pos, 0, false, []), n));
      hide Turn, Repeat;
    }
  }

  /** The rest of pixels written one by one. */
  lemma {:induction false} PixelsBack(pre: seq<byte>, comp: nat, vs: seq<Pixel>, post: seq<byte>, raw: Pixel, n: nat)
    requires Sized(vs, comp)
    ensures var s := pre + Flatten(vs) + post;
            Pixels(s, comp, Cursor(|pre|, |vs|, false, raw), |vs| + n)
            == vs + Pixels(s, comp, Cursor(|pre + Flatten(vs)|, 0, false, []), n)
    decreases |vs|
  {
    var s := pre + Flatten(vs) + post;
    if vs == [] {
      Afresh(s, comp, Cursor(|pre|, 0, false, raw), n);
      assert pre + [] == pre;
    } else {
      var v, rest := vs[0], vs[1..];
      Regroup(pre, v, Flatten(rest), post);
      RawBack(pre, v, Flatten(rest) + post);
      assert Turn(s, comp, Cursor(|pre|, |vs|, false, raw)) == Cursor(|pre + v|, |rest|, false, v);
      PixelsBack(pre + v, comp, rest, post, v, n);
      Regroup3([v], rest, Pixels(s, comp, Cursor(|pre + Flatten(vs)|, 0, false, []), n));
      assert [v] + rest == vs;
      hide Turn, Bytes;
    }
  }

  /** A packet wherever it stands gives its pixels, and the reader stands behind it. */
  lemma PacketPixels(pre: seq<byte>, comp: nat, p: Packet<Pixel>, post: seq<byte>, n: nat)
    requires TgaPacket(p, comp)
    ensures var s := pre + TgaBytes(p) + post;
            Pixels(s, comp, Cursor(|pre|, 0, false, []), |Values(p)| + n)
            == Values(p) + Pixels(s, comp, Cursor(|pre + TgaBytes(p)|, 0, false, []), n)
  {
    if p.Run? {
      RunPixels(pre, comp, p.n, p.v, post, n);
    } else {
      RawPixels(pre, comp, p.vs, post, n);
    }
  }

  lemma FirstTurn(pre: seq<byte>, comp: nat, cmd: byte, v: Pixel, post: seq<byte>)
    requires |v| == comp
    ensures Turn(pre + ([cmd] + v) + post, comp, Cursor(|pre|, 0, false, [])) == Cursor(|pre| + 1 + comp, cmd % 128, cmd >= 128, v)
  {
    var s := pre + ([cmd] + v) + post;
    Regroup(pre, [cmd], v, post);
    RawBack(pre + [cmd], v, post);
    assert s[|pre|] == cmd;
    hide Bytes;
  }

  lemma RunPixels(pre: seq<byte>, comp: nat, k: nat, v: Pixel, post: seq<byte>, n: nat)
    requires 2 <= k <= 128 && |v| == comp
    ensures var s := pre + ([(k + 127) % 256] + v) + post;
            Pixels(s, comp, Cursor(|pre|, 0, false, []), k + n)
            == Repeat<Pixel>(v, k) + Pixels(s, comp, Cursor(|pre| + 1 + comp, 0, false, []), n)
  {
    var cmd: byte := (k + 127) % 256;
    var s := pre + ([cmd] + v) + post;
    FirstTurn(pre, comp, cmd, v, post);
    RepeatsBack(s, comp, |pre| + 1 + comp, k - 1, v, n);
    assert Repeat<Pixel>(v, k) == [v] + Repeat<Pixel>(v, k - 1);
    hide Turn, Repeat;
    assert cmd == k + 127 && cmd % 128 == k - 1;
    Regroup3([v], Repeat<Pixel>(v, k - 1), Pixels(s, comp, Cursor(|pre| + 1 + comp, 0, false, []), n));
  }

  lemma RawPixels(pre: seq<byte>, comp: nat, vs: seq<Pixel>, post: seq<byte>, n: nat)
    requires 1 <= |vs| <= 128 && Sized(vs, comp)
    ensures var bytes := [(|vs| + 255) % 256] + Flatten(vs);
            var s := pre + bytes + post;
            Pixels(s, comp, Cursor(|pre|, 0, false, []), |vs| + n)
            == vs + Pixels(s, comp, Cursor(|pre + bytes|, 0, false, []), n)
  {
    var cmd: byte, v, rest := (|vs| + 255) % 256, vs[0], vs[1..];
    assert cmd == |vs| - 1 && cmd % 128 == |rest|;
    var s := pre + ([cmd] + Flatten(vs)) + post;
    Regroup(pre, [cmd], Flatten(vs), post);
    Regroup(pre, [cmd] + v, Flatten(rest), post);
    Regroup([cmd], v, Flatten(rest), []);
    assert ([cmd] + Flatten(vs)) == ([cmd] + v) + Flatten(rest);
    FirstTurn(pre, comp, cmd, v, Flatten(rest) + post);
    PixelsBack(pre + ([cmd] + v), comp, rest, post, v, n);
    hide Turn;
    Regroup3([v], rest, Pixels(s, comp, Cursor(|pre + ([cmd] + Flatten(vs))|, 0, false, []), n));
    assert [v] + rest == vs;
  }

  /** Rows, or any packets one after another, are read back pixel for pixel. */
  lemma {:induction false} RowsBack(pre: seq<byte>, comp: nat, ps: seq<Packet<Pixel>>, post: seq<byte>, n: nat)
    requires TgaPackets(ps, comp)
    ensures var s := pre + TgaStream(ps) + post;
            Pixels(s, comp, Cursor(|pre|, 0, false, []), |Expand(ps)| + n)
            == Expand(ps) + Pixels(s, comp, Cursor(|pre + TgaStream(ps)|, 0, false, []), n)
    decreases |ps|
  {
    hide TgaPacket, TgaBytes, Values, Pixels;
    if ps == [] {
      assert pre + [] == pre;
    } else {
      var init, p := ps[..|ps| - 1], ps[|ps| - 1];
      assert ps == init + [p] && TgaPacket(p, comp) && TgaPackets(init, comp);
      TgaAppend(init, p);
      ExpandAppend(init, p);
      hide TgaStream, Expand, TgaPackets;
      var head, bytes := TgaStream(init), TgaBytes(p);
      Regroup(pre, head, bytes, post);
      RowsBack(pre, comp, init, bytes + post, |Values(p)| + n);
      PacketPixels(pre + head, comp, p, post, n);
      Regroup3(Expand(init), Values(p), Pixels(pre + TgaStream(ps) + post, comp, Cursor(|pre + head + bytes|, 0, false, []), n));
    }
  }
}
