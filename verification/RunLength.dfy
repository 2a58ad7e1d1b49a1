/** The two run-length coders: Radiance HDR scanlines and Targa rows, after
    `ui/stb_image_write.h` and `canvas/stb_image.h`.  Both write packets that hold one value repeated
    or several values as they are. */
module RunLength {
  type byte = x: int | 0 <= x < 256

  datatype Option<+T> = None | Some(value: T)

  datatype Packet<T> = Run(n: nat, v: T) | Raw(vs: seq<T>)

  function Repeat<T>(v: T, n: nat): (r: seq<T>)
    ensures |r| == n && forall k :: 0 <= k < n ==> r[k] == v
  {
    seq<T>(n, _ => v)
  }

  function Values<T>(p: Packet<T>): seq<T> {
    match p
    case Run(n, v) => Repeat(v, n)
    case Raw(vs) => vs
  }

  function Expand<T>(ps: seq<Packet<T>>): seq<T> {
    if ps == [] then [] else Expand(ps[..|ps| - 1]) + Values(ps[|ps| - 1])
  }

  lemma ExpandAppend<T>(ps: seq<Packet<T>>, p: Packet<T>)
    ensures Expand(ps + [p]) == Expand(ps) + Values(p)
  {
    assert (ps + [p])[..|ps|] == ps;
  }

  // ---------------------------------------------------------------- HDR components

  /** A packet of a component: at most 127 repeats, or at most 128 bytes. */
  predicate HdrPacket(p: Packet<byte>) {
    match p
    case Run(n, _) => 1 <= n <= 127
    case Raw(vs) => 1 <= |vs| <= 128
  }

  ghost predicate Packets(ps: seq<Packet<byte>>) {
    forall p :: p in ps ==> HdrPacket(p)
  }

  /** The length byte, with the high bit for a repeat, then the values. */
  function HdrBytes(p: Packet<byte>): seq<byte> {
    match p
    case Run(n, v) => [(n + 128) % 256, v]
    case Raw(vs) => [|vs| % 256] + vs
  }

  function HdrStream(ps: seq<Packet<byte>>): seq<byte> {
    if ps == [] then [] else HdrStream(ps[..|ps| - 1]) + HdrBytes(ps[|ps| - 1])
  }

  lemma HdrAppend(ps: seq<Packet<byte>>, p: Packet<byte>)
    ensures HdrStream(ps + [p]) == HdrStream(ps) + HdrBytes(p)
  {
    assert (ps + [p])[..|ps|] == ps;
  }

  lemma PacketRaw(vs: seq<byte>)
    requires 1 <= |vs| <= 128
    ensures HdrPacket(Raw(vs)) && Values<byte>(Raw(vs)) == vs
  {
  }

  lemma PacketRun(n: nat, v: byte)
    requires 1 <= n <= 127
    ensures HdrPacket(Run(n, v)) && Values<byte>(Run(n, v)) == Repeat<byte>(v, n)
  {
  }

  /** Three equal bytes from `r` on. */
  predicate RunAt(comp: seq<byte>, r: int) {
    0 <= r && r + 2 < |comp| && comp[r] == comp[r + 1] && comp[r] == comp[r + 2]
  }

  /** Wherever `out` stands, the reader makes `comp` of it and stops behind it. */
  ghost predicate ReadsBack(out: seq<byte>, comp: seq<byte>) {
    forall pre: seq<byte>, post: seq<byte> ::
      DecodeFrom(pre + out + post, |pre|, |comp|) == Some((comp, |pre + out|))
  }

  /** The inner loops of `stbiw__write_hdr_scanline` for one component: what is written is a list of
      packets that expand to the component, and the reader finds the component again. */
  method EncodeComponent(comp: seq<byte>) returns (out: seq<byte>, ghost ps: seq<Packet<byte>>)
    ensures Packets(ps) && out == HdrStream(ps) && Expand(ps) == comp
    ensures ReadsBack(out, comp)
  {
    hide HdrPacket, HdrBytes, Values, ReadsBack;
    out, ps := [], [];
    var x, width := 0, |comp|;
    while x < width
      invariant 0 <= x <= width
      invariant Packets(ps)
      invariant out == HdrStream(ps) && Expand(ps) == comp[..x]
      decreases width - x
    {
      var r := x;
      while r + 2 < width && !RunAt(comp, r)
        invariant x <= r <= width
      {
        r := r + 1;
      }
      if r + 2 >= width { r := width; }
      ghost var before := x;
      while x < r
        invariant before <= x <= r <= width
        invariant Packets(ps)
        invariant out == HdrStream(ps) && Expand(ps) == comp[..x]
      {
        var len := if r - x > 128 then 128 else r - x;
        PacketRaw(comp[x..x + len]);
        out := WritePacket(out, Raw(comp[x..x + len]), ps);
        ps := ps + [Raw(comp[x..x + len])];
        assert comp[..x] + comp[x..x + len] == comp[..x + len];
        x := x + len;
      }
      if r + 2 < width {
        ghost var start := r;
        while r < width && comp[r] == comp[x]
          invariant start <= r <= width && x == start
          invariant forall k :: start <= k < r ==> comp[k] == comp[start]
          invariant r == start ==> comp[r] == comp[x]
        {
          r := r + 1;
        }
        while x < r
          invariant start <= x <= r <= width
          invariant forall k :: start <= k < r ==> comp[k] == comp[start]
          invariant Packets(ps)
          invariant out == HdrStream(ps) && Expand(ps) == comp[..x]
        {
          var len := if r - x > 127 then 127 else r - x;
          PacketRun(len, comp[x]);
          out := WritePacket(out, Run(len, comp[x]), ps);
          ps := ps + [Run(len, comp[x])];
          assert Repeat<byte>(comp[x], len) == comp[x..x + len];
          assert comp[..x] + comp[x..x + len] == comp[..x + len];
          x := x + len;
        }
      }
    }
    assert comp[..width] == comp;
    ComponentBack(ps, comp);
  }

  /** `stbiw__write_dump_data` and `stbiw__write_run_data`. */
  method WritePacket(out: seq<byte>, p: Packet<byte>, ghost ps: seq<Packet<byte>>) returns (now: seq<byte>)
    requires HdrPacket(p) && Packets(ps) && out == HdrStream(ps)
    ensures now == HdrStream(ps + [p]) && Packets(ps + [p]) && Expand(ps + [p]) == Expand(ps) + Values(p)
  {
    HdrAppend(ps, p);
    ExpandAppend(ps, p);
    hide Expand, HdrStream, HdrBytes, HdrPacket, Values;
    now := out + HdrBytes(p);
  }

  /** A byte of the stream; past its end the reader gets 0. */
  function At(s: seq<byte>, pos: nat): byte {
    if pos < |s| then s[pos] else 0
  }

  function Bytes(s: seq<byte>, pos: nat, n: nat): (r: seq<byte>)
    ensures |r| == n
  {
    seq<byte>(n, k requires 0 <= k < n => At(s, pos + k))
  }

  /** The reader's loop for one component with `left` bytes to go: the bytes and where it stops, or
      nothing if a packet is empty or too long. */
  function DecodeFrom(s: seq<byte>, pos: nat, left: nat): Option<(seq<byte>, nat)>
    decreases left
  {
    if left == 0 then Some(([], pos))
    else
      var count := At(s, pos);
      var n: nat := if count > 128 then count - 128 else count;
      if n == 0 || n > left then None
      else
        var rest := DecodeFrom(s, if count > 128 then pos + 2 else pos + 1 + n, left - n);
        if rest.None? then None
        else Some(((if count > 128 then Repeat<byte>(At(s, pos + 1), n) else Bytes(s, pos + 1, n)) + rest.value.0, rest.value.1))
  }

  /** One packet read: its values, and where it ends. */
  function DecodePacket(s: seq<byte>, pos: nat, left: nat): Option<(seq<byte>, nat)> {
    var count := At(s, pos);
    var n: nat := if count > 128 then count - 128 else count;
    if n == 0 || n > left then None
    else if count > 128 then Some((Repeat<byte>(At(s, pos + 1), n), pos + 2))
    else Some((Bytes(s, pos + 1, n), pos + 1 + n))
  }

  /** Values read before the rest. */
  function Then(vs: seq<byte>, rest: Option<(seq<byte>, nat)>): Option<(seq<byte>, nat)> {
    if rest.None? then None else Some((vs + rest.value.0, rest.value.1))
  }

  lemma ThenThen(vs: seq<byte>, ws: seq<byte>, rest: Option<(seq<byte>, nat)>)
    ensures Then(vs, Then(ws, rest)) == Then(vs + ws, rest) && Then([], rest) == rest
  {
    if rest.Some? {
      assert (vs + ws) + rest.value.0 == vs + (ws + rest.value.0);
      assert [] + rest.value.0 == rest.value.0;
    }
  }

  lemma DecodeStep(s: seq<byte>, pos: nat, left: nat)
    requires left > 0
    ensures var p := DecodePacket(s, pos, left);
            && (p.None? ==> DecodeFrom(s, pos, left) == None)
            && (p.Some? ==> 0 < |p.value.0| <= left && DecodeFrom(s, pos, left) == Then(p.value.0, DecodeFrom(s, p.value.1, left - |p.value.0|)))
  {
  }

  method DecodeComponent(s: seq<byte>, start: nat, width: nat) returns (r: Option<(seq<byte>, nat)>)
    ensures r == DecodeFrom(s, start, width)
  {
    var pos := start;
    var out: seq<byte> := [];
    ThenThen([], [], DecodeFrom(s, start, width));
    while |out| < width
      invariant |out| <= width
      invariant DecodeFrom(s, start, width) == Then(out, DecodeFrom(s, pos, width - |out|))
      decreases width - |out|
    {
      DecodeStep(s, pos, width - |out|);
      hide DecodeFrom, DecodePacket;
      var p := DecodePacket(s, pos, width - |out|);
      if p.None? { return None; }
      ThenThen(out, p.value.0, DecodeFrom(s, p.value.1, width - |out| - |p.value.0|));
      out, pos := out + p.value.0, p.value.1;
    }
    assert DecodeFrom(s, pos, 0) == Some(([], pos)) && out + [] == out;
    return Some((out, pos));
  }

  // ---------------------------------------------------------------- HDR scanlines

  /** A packet wherever it stands is read back. */
  lemma PacketBack(pre: seq<byte>, p: Packet<byte>, post: seq<byte>, left: nat)
    requires HdrPacket(p) && |Values(p)| <= left
    ensures DecodePacket(pre + HdrBytes(p) + post, |pre|, left) == Some((Values(p), |pre + HdrBytes(p)|))
  {
    if p.Run? {
      RunBack(pre, p.n, p.v, post, left);
    } else {
      DumpBack(pre, p.vs, post, left);
    }
  }

  lemma RunBack(pre: seq<byte>, n: nat, v: byte, post: seq<byte>, left: nat)
    requires 1 <= n <= 127 && n <= left
    ensures DecodePacket(pre + [(n + 128) % 256, v] + post, |pre|, left) == Some((Repeat<byte>(v, n), |pre| + 2))
  {
    var s := pre + [(n + 128) % 256, v] + post;
    hide Repeat, Bytes;
    assert s[|pre|] == n + 128 && s[|pre| + 1] == v;
  }

  lemma DumpBack(pre: seq<byte>, vs: seq<byte>, post: seq<byte>, left: nat)
    requires 1 <= |vs| <= 128 && |vs| <= left
    ensures DecodePacket(pre + ([|vs| % 256] + vs) + post, |pre|, left) == Some((vs, |pre| + 1 + |vs|))
  {
    Regroup(pre, [|vs| % 256], vs, post);
    RawBack(pre + [|vs| % 256], vs, post);
    hide Bytes, Repeat;
    assert (pre + ([|vs| % 256] + vs) + post)[|pre|] == |vs|;
  }

  lemma RawBack(pre: seq<byte>, vs: seq<byte>, post: seq<byte>)
    ensures Bytes(pre + vs + post, |pre|, |vs|) == vs
  {
    var s := pre + vs + post;
    forall k | 0 <= k < |vs| ensures At(s, |pre| + k) == vs[k] {
      assert s[|pre| + k] == vs[k];
    }
  }

  lemma Regroup(a: seq<byte>, b: seq<byte>, c: seq<byte>, d: seq<byte>)
    ensures a + (b + c) + d == a + b + (c + d) && a + (b + c) + d == (a + b) + c + d && a + (b + c) == (a + b) + c
  {
  }

  /** Packets wherever they stand are read back, and the reader goes on behind them. */
  lemma {:induction false} PacketsBack(pre: seq<byte>, ps: seq<Packet<byte>>, post: seq<byte>, left: nat)
    requires Packets(ps)
    ensures var s := pre + HdrStream(ps) + post;
            DecodeFrom(s, |pre|, |Expand(ps)| + left) == Then(Expand(ps), DecodeFrom(s, |pre + HdrStream(ps)|, left))
    decreases |ps|
  {
    hide DecodeFrom, DecodePacket, Then, HdrPacket, HdrBytes, Values;
    var s := pre + HdrStream(ps) + post;
    if ps == [] {
      assert pre + [] == pre;
      ThenThen([], [], DecodeFrom(s, |pre|, left));
    } else {
      var init, p := ps[..|ps| - 1], ps[|ps| - 1];
      assert ps == init + [p] && HdrPacket(p) && Packets(init);
      HdrAppend(init, p);
      ExpandAppend(init, p);
      hide HdrStream, Expand, Packets;
      var head, bytes, n := HdrStream(init), HdrBytes(p), |Values(p)|;
      Regroup(pre, head, bytes, post);
      PacketsBack(pre, init, bytes + post, n + left);
      PacketBack(pre + head, p, post, n + left);
      ValuesNonempty(p);
      DecodeStep(s, |pre + head|, n + left);
      ThenThen(Expand(init), Values(p), DecodeFrom(s, |pre + head + bytes|, left));
    }
  }

  lemma ValuesNonempty(p: Packet<byte>)
    requires HdrPacket(p)
    ensures |Values(p)| >= 1
  {
  }

  /** What the reader makes of the start of a scanline. */
  datatype Scanline = Flat | Corrupt | Planes(planes: seq<seq<byte>>, next: nat)

  function DecodePlanes(s: seq<byte>, pos: nat, width: nat, k: nat): Option<(seq<seq<byte>>, nat)> {
    if k == 0 then Some(([], pos))
    else
      var first := DecodePlanes(s, pos, width, k - 1);
      if first.None? then None
      else
        var plane := DecodeFrom(s, first.value.1, width);
        if plane.None? then None else Some((first.value.0 + [plane.value.0], plane.value.1))
  }

  /** One scanline of an image of this width: the four bytes in front, then the four components. */
  function DecodeScanline(s: seq<byte>, pos: nat, width: nat): Scanline {
    if At(s, pos) != 2 || At(s, pos + 1) != 2 || At(s, pos + 2) >= 128 then Flat
    else if At(s, pos + 2) * 256 + At(s, pos + 3) != width then Corrupt
    else
      var planes := DecodePlanes(s, pos + 4, width, 4);
      if planes.None? then Corrupt else Planes(planes.value.0, planes.value.1)
  }

  method ReadScanline(s: seq<byte>, pos: nat, width: nat) returns (r: Scanline)
    ensures r == DecodeScanline(s, pos, width)
  {
    hide DecodeFrom, At;
    var c1, c2, len := At(s, pos), At(s, pos + 1), At(s, pos + 2);
    if c1 != 2 || c2 != 2 || len >= 128 { return Flat; }
    if len * 256 + At(s, pos + 3) != width { return Corrupt; }
    var at := pos + 4;
    var planes: seq<seq<byte>> := [];
    for k := 0 to 4
      invariant DecodePlanes(s, pos + 4, width, k) == Some((planes, at))
    {
      var plane := DecodeComponent(s, at, width);
      if plane.None? {
        PlanesStop(s, pos + 4, width, k + 1, 4);
        return Corrupt;
      }
      planes, at := planes + [plane.value.0], plane.value.1;
    }
    return Planes(planes, at);
  }

  lemma {:induction false} PlanesStop(s: seq<byte>, pos: nat, width: nat, k: nat, n: nat)
    requires k <= n && DecodePlanes(s, pos, width, k).None?
    ensures DecodePlanes(s, pos, width, n).None?
    decreases n
  {
    if k < n {
      PlanesStop(s, pos, width, k, n - 1);
    }
  }

  /** Wherever `out` stands, the reader makes these four components of it and stops behind it. */
  ghost predicate ScanlineReadsBack(out: seq<byte>, planes: seq<seq<byte>>, width: nat) {
    forall pre: seq<byte>, post: seq<byte> ::
      DecodeScanline(pre + out + post, |pre|, width) == Planes(planes, |pre + out|)
  }

  /** `stbiw__write_hdr_scanline` behind the conversion to bytes: the four components in turn. */
  method WriteScanline(planes: seq<seq<byte>>, width: nat) returns (out: seq<byte>, ghost streams: seq<seq<Packet<byte>>>)
    requires |planes| == 4 && 8 <= width < 32768 && forall k :: 0 <= k < 4 ==> |planes[k]| == width
    ensures Written(planes, streams) && out == [2, 2, width / 256, width % 256] + Streams(streams)
    ensures ScanlineReadsBack(out, planes, width)
  {
    hide HdrPacket, HdrStream, Expand, Packets, ReadsBack, ScanlineReadsBack;
    ghost var head: seq<byte> := [2, 2, width / 256, width % 256];
    out, streams := [2, 2, width / 256, width % 256], [];
    assert head + [] == head;
    for k := 0 to 4
      invariant |streams| == k && Written(planes[..k], streams) && out == head + Streams(streams)
    {
      var bytes, ps := EncodeComponent(planes[k]);
      WrittenMore(planes, k, streams, ps);
      Regroup(head, Streams(streams), bytes, []);
      out, streams := out + bytes, streams + [ps];
    }
    assert planes[..4] == planes;
    AnyScanlineBack(planes, streams, width);
  }

  lemma AnyScanlineBack(planes: seq<seq<byte>>, streams: seq<seq<Packet<byte>>>, width: nat)
    requires |planes| == 4 && Written(planes, streams) && 8 <= width < 32768
    requires forall k :: 0 <= k < 4 ==> |planes[k]| == width
    ensures ScanlineReadsBack([2, 2, width / 256, width % 256] + Streams(streams), planes, width)
  {
    hide Written, Streams, DecodeScanline;
    var head: seq<byte> := [2, 2, width / 256, width % 256];
    var out := head + Streams(streams);
    forall pre: seq<byte>, post: seq<byte>
      ensures DecodeScanline(pre + out + post, |pre|, width) == Planes(planes, |pre + out|)
    {
      ScanlineBack(pre, planes, streams, post, width);
      Regroup(pre, head, Streams(streams), post);
    }
  }

  lemma WrittenMore(planes: seq<seq<byte>>, k: nat, streams: seq<seq<Packet<byte>>>, ps: seq<Packet<byte>>)
    requires k < |planes| && Written(planes[..k], streams) && Expand(ps) == planes[k] && Packets(ps)
    ensures Written(planes[..k + 1], streams + [ps]) && Streams(streams + [ps]) == Streams(streams) + HdrStream(ps)
  {
    hide HdrStream, Expand, Packets;
    assert (streams + [ps])[..|streams|] == streams;
    forall i | 0 <= i < k + 1 ensures Expand((streams + [ps])[i]) == planes[i] && Packets((streams + [ps])[i]) {
      if i < k { assert planes[..k][i] == planes[i]; }
    }
  }

  /** Each component is what its packets expand to. */
  ghost predicate Written(planes: seq<seq<byte>>, streams: seq<seq<Packet<byte>>>) {
    && |planes| == |streams|
    && forall k :: 0 <= k < |planes| ==> Expand(streams[k]) == planes[k] && Packets(streams[k])
  }

  function Streams(streams: seq<seq<Packet<byte>>>): seq<byte> {
    if streams == [] then [] else Streams(streams[..|streams| - 1]) + HdrStream(streams[|streams| - 1])
  }

  lemma StreamsSplit(planes: seq<seq<byte>>, streams: seq<seq<Packet<byte>>>)
    requires Written(planes, streams) && planes != []
    ensures var n := |planes| - 1;
            && Written(planes[..n], streams[..n]) && Expand(streams[n]) == planes[n] && Packets(streams[n])
            && Streams(streams) == Streams(streams[..n]) + HdrStream(streams[n]) && planes == planes[..n] + [planes[n]]
  {
    hide HdrStream, Expand, Packets;
    var n := |planes| - 1;
    forall i | 0 <= i < n ensures Expand(streams[..n][i]) == planes[..n][i] && Packets(streams[..n][i]) {
      assert streams[..n][i] == streams[i];
    }
  }

  lemma PlaneBack(pre: seq<byte>, plane: seq<byte>, ps: seq<Packet<byte>>, post: seq<byte>)
    requires Packets(ps) && Expand(ps) == plane
    ensures DecodeFrom(pre + HdrStream(ps) + post, |pre|, |plane|) == Some((plane, |pre + HdrStream(ps)|))
  {
    PacketsBack(pre, ps, post, 0);
    assert plane + [] == plane;
    hide HdrStream, Expand, Packets;
  }

  lemma ComponentBack(ps: seq<Packet<byte>>, comp: seq<byte>)
    requires Packets(ps) && Expand(ps) == comp
    ensures ReadsBack(HdrStream(ps), comp)
  {
    hide HdrStream, Packets, Expand, DecodeFrom;
    forall pre: seq<byte>, post: seq<byte>
      ensures DecodeFrom(pre + HdrStream(ps) + post, |pre|, |comp|) == Some((comp, |pre + HdrStream(ps)|))
    {
      PlaneBack(pre, comp, ps, post);
    }
  }

  lemma {:induction false} PlanesBack(pre: seq<byte>, planes: seq<seq<byte>>, streams: seq<seq<Packet<byte>>>, post: seq<byte>, width: nat)
    requires Written(planes, streams) && forall k :: 0 <= k < |planes| ==> |planes[k]| == width
    ensures DecodePlanes(pre + Streams(streams) + post, |pre|, width, |planes|) == Some((planes, |pre + Streams(streams)|))
    decreases |planes|
  {
    hide HdrStream, Packets, Expand, DecodeFrom;
    if planes == [] {
      assert pre + [] == pre;
    } else {
      StreamsSplit(planes, streams);
      hide Streams, Written;
      var n := |planes| - 1;
      var head, last := Streams(streams[..n]), HdrStream(streams[n]);
      Regroup(pre, head, last, post);
      PlanesBack(pre, planes[..n], streams[..n], last + post, width);
      PlaneBack(pre + head, planes[n], streams[n], post);
    }
  }

  /** Every scanline of width 8 to 32767 is read back, byte for byte, wherever it stands. */
  lemma ScanlineBack(pre: seq<byte>, planes: seq<seq<byte>>, streams: seq<seq<Packet<byte>>>, post: seq<byte>, width: nat)
    requires |planes| == 4 && Written(planes, streams) && 8 <= width < 32768
    requires forall k :: 0 <= k < 4 ==> |planes[k]| == width
    ensures var head: seq<byte> := [2, 2, width / 256, width % 256];
            DecodeScanline(pre + head + Streams(streams) + post, |pre|, width) == Planes(planes, |pre + head + Streams(streams)|)
  {
    var head: seq<byte> := [2, 2, width / 256, width % 256];
    var s := pre + head + Streams(streams) + post;
    PlanesBack(pre + head, planes, streams, post, width);
    hide DecodePlanes, Streams;
    assert s[|pre|] == 2 && s[|pre| + 1] == 2 && s[|pre| + 2] == width / 256 && s[|pre| + 3] == width % 256;
  }
}
