/** The Yjs sync wire format of `server_rust/src/sync.rs`: LEB128 varints, length-prefixed
    buffers and the loop that decodes and applies one WebSocket message. */
module SyncCodec {
  import opened Bits

  datatype Option<+T> = None | Some(value: T)

  datatype Error = VarintTruncated | VarintOverflow | BufferTruncated | BadStateVector | BadUpdate

  datatype Result<+T> = Ok(value: T) | Err(error: Error)

  const U64: nat := 0x1_0000_0000_0000_0000

  // ---------------------------------------------------------------- varints

  function Varint(v: nat): (s: seq<byte>)
    ensures |s| >= 1
  {
    if v >= 0x80 then [v % 0x80 + 0x80] + Varint(v / 0x80) else [v]
  }

  /** `write_varint`. */
  method WriteVarint(out: seq<byte>, v: nat) returns (now: seq<byte>)
    ensures now == out + Varint(v)
  {
    var value := v;
    now := out;
    while value >= 0x80
      invariant now + Varint(value) == out + Varint(v)
    {
      Assoc(now, [value % 0x80 + 0x80], Varint(value / 0x80));
      now := now + [value % 0x80 + 0x80];
      value := value / 0x80;
    }
    now := now + [value % 0x80];
  }

  /** The decoding loop from `pos` on: `acc` is read already, the next seven bits go to `shift`.
      Bits shifted past the 64th are lost. */
  function ReadFrom(buf: seq<byte>, pos: nat, acc: nat, shift: nat): (r: Result<(nat, nat)>)
    ensures r.Ok? ==> pos < r.value.1 <= |buf|
    decreases |buf| - pos
  {
    if pos >= |buf| then Err(VarintTruncated)
    else
      var now := acc + Shl(buf[pos] % 0x80, shift) % U64;
      if buf[pos] < 0x80 then Ok((now, pos + 1))
      else if shift + 7 >= 64 then Err(VarintOverflow)
      else ReadFrom(buf, pos + 1, now, shift + 7)
  }

  function ReadVarintAt(buf: seq<byte>, pos: nat): (r: Result<(nat, nat)>)
    ensures r.Ok? ==> pos < r.value.1 <= |buf|
  {
    ReadFrom(buf, pos, 0, 0)
  }

  /** `read_varint`: the value and the advanced cursor. */
  method ReadVarint(buf: seq<byte>, pos: nat) returns (r: Result<(nat, nat)>)
    ensures r == ReadVarintAt(buf, pos)
  {
    var result: nat, shift: nat, p: nat := 0, 0, pos;
    while true
      invariant ReadFrom(buf, p, result, shift) == ReadVarintAt(buf, pos)
      decreases |buf| - p
    {
      if p >= |buf| { return Err(VarintTruncated); }
      var b := buf[p];
      p := p + 1;
      result := result + Shl(b % 0x80, shift) % U64;
      if b < 0x80 { return Ok((result, p)); }
      shift := shift + 7;
      if shift >= 64 { return Err(VarintOverflow); }
    }
  }

  lemma PowerOf64()
    ensures Pow2(64) == U64
  {
    assert Pow2(8) == 0x100;
    assert Pow2(16) == 0x1_0000;
    assert Pow2(24) == 0x100_0000;
    assert Pow2(32) == 0x1_0000_0000;
    assert Pow2(40) == 0x100_0000_0000;
    assert Pow2(48) == 0x1_0000_0000_0000;
    assert Pow2(56) == 0x100_0000_0000_0000;
    assert Pow2(64) == 0x1_0000_0000_0000_0000;
  }

  /** The rest of a 64-bit value always fits below the 64th bit. */
  lemma ShiftFits(v: nat, acc: nat, shift: nat)
    requires acc + Shl(v, shift) < U64
    ensures Shl(v % 0x80, shift) < U64
    ensures v >= 0x80 ==> shift + 7 < 64
    ensures Shl(v, shift) == Shl(v % 0x80, shift) + Shl(v / 0x80, shift + 7)
  {
    assert v == v % 0x80 + 0x80 * (v / 0x80);
    ShlSum(v % 0x80, 0x80 * (v / 0x80), shift);
    ShlSeven(v / 0x80, shift);
    if v >= 0x80 && shift + 7 >= 64 {
      ShlMono(1, v / 0x80, shift + 7);
      ShlPow2(shift + 7);
      Pow2Mono(64, shift + 7);
      PowerOf64();
      assert false;
    }
  }

  lemma ShlSeven(v: nat, shift: nat)
    ensures Shl(0x80 * v, shift) == Shl(v, shift + 7)
  {
    assert Shl(v, 1) == 2 * v;
    assert Shl(v, 3) == 8 * v;
    assert Shl(v, 5) == 32 * v;
    assert Shl(v, 7) == 0x80 * v;
    ShlAgain(v, 7, shift);
  }

  /** One byte of the decoding loop. */
  lemma ReadStep(buf: seq<byte>, pos: nat, acc: nat, shift: nat, low: nat)
    requires pos < |buf| && low == Shl(buf[pos] % 0x80, shift) < U64
    ensures buf[pos] < 0x80 ==> ReadFrom(buf, pos, acc, shift) == Ok((acc + low, pos + 1))
    ensures buf[pos] >= 0x80 && shift + 7 < 64 ==>
              ReadFrom(buf, pos, acc, shift) == ReadFrom(buf, pos + 1, acc + low, shift + 7)
  {
  }

  lemma {:induction false} ReadWritten(pre: seq<byte>, v: nat, rest: seq<byte>, acc: nat, shift: nat)
    requires acc + Shl(v, shift) < U64
    ensures ReadFrom(pre + Varint(v) + rest, |pre|, acc, shift)
         == Ok((acc + Shl(v, shift), |pre| + |Varint(v)|))
    decreases v
  {
    var buf := pre + Varint(v) + rest;
    ShiftFits(v, acc, shift);
    var low := Shl(v % 0x80, shift);
    if v >= 0x80 {
      var b := v % 0x80 + 0x80;
      assert b % 0x80 == v % 0x80 && b >= 0x80;
      assert buf == (pre + [b]) + Varint(v / 0x80) + rest;
      ReadWritten(pre + [b], v / 0x80, rest, acc + low, shift + 7);
      assert buf[|pre|] == b;
      ReadStep(buf, |pre|, acc, shift, low);
      hide ReadFrom, Shl;
    } else {
      assert buf[|pre|] == v;
      ReadStep(buf, |pre|, acc, shift, low);
      hide ReadFrom;
    }
  }

  /** Every 64-bit value is read back, wherever it stands. */
  lemma VarintRoundTrip(pre: seq<byte>, v: nat, rest: seq<byte>)
    requires v < U64
    ensures ReadVarintAt(pre + Varint(v) + rest, |pre|) == Ok((v, |pre| + |Varint(v)|))
  {
    ReadWritten(pre, v, rest, 0, 0);
  }

  /** The varint at `pos` ends in its byte `n`, the first below 0x80, within ten bytes. */
  ghost predicate EndsAt(buf: seq<byte>, pos: nat, n: nat) {
    n < 10 && pos + n < |buf| && buf[pos + n] < 0x80 && Goes(buf, pos, n)
  }

  ghost predicate Goes(buf: seq<byte>, pos: nat, n: nat) {
    pos + n <= |buf| && forall i :: pos <= i < pos + n ==> buf[i] >= 0x80
  }

  lemma {:induction false} ReadDecides(buf: seq<byte>, pos: nat, acc: nat, j: nat)
    requires j < 10 && pos + j <= |buf| && Goes(buf, pos, j)
    ensures var r := ReadFrom(buf, pos + j, acc, 7 * j);
            && (r.Ok? ==> exists n :: EndsAt(buf, pos, n) && r.value.1 == pos + n + 1)
            && (r == Err(VarintOverflow) ==> Goes(buf, pos, 10))
            && (r.Err? && r != Err(VarintOverflow) ==> r == Err(VarintTruncated) && |buf| - pos < 10 && Goes(buf, pos, |buf| - pos))
    decreases 10 - j
  {
    hide Shl;
    if pos + j < |buf| {
      if buf[pos + j] < 0x80 {
        assert EndsAt(buf, pos, j);
      } else {
        assert Goes(buf, pos, j + 1);
        if j < 9 {
          ReadDecides(buf, pos, acc + Shl(buf[pos + j] % 0x80, 7 * j) % U64, j + 1);
        }
      }
    }
  }

  /** A varint is read exactly when it ends within ten bytes, and the cursor then stands behind its last
      byte; ten bytes that all go on overflow; fewer, all that are left, are cut off. */
  lemma VarintDecides(buf: seq<byte>, pos: nat)
    requires pos <= |buf|
    ensures var r := ReadVarintAt(buf, pos);
            && (r.Ok? <==> exists n :: EndsAt(buf, pos, n))
            && (r.Ok? ==> forall n :: EndsAt(buf, pos, n) ==> r.value.1 == pos + n + 1)
            && (r == Err(VarintOverflow) <==> Goes(buf, pos, 10))
            && (r == Err(VarintTruncated) <==> |buf| - pos < 10 && Goes(buf, pos, |buf| - pos))
  {
    hide ReadFrom;
    ReadDecides(buf, pos, 0, 0);
    assert forall n, m :: EndsAt(buf, pos, n) && EndsAt(buf, pos, m) ==> n == m;
    assert forall n :: EndsAt(buf, pos, n) ==> !Goes(buf, pos, 10) && (|buf| - pos < 10 ==> !Goes(buf, pos, |buf| - pos));
  }

  // ---------------------------------------------------------------- buffers

  function BufferBytes(bytes: seq<byte>): seq<byte> {
    Varint(|bytes|) + bytes
  }

  /** `read_varint_buffer`: the slice and the advanced cursor. */
  function ReadBufferAt(buf: seq<byte>, pos: nat): (r: Result<(seq<byte>, nat)>)
    ensures r.Ok? ==> pos < r.value.1 <= |buf|
  {
    var len := ReadVarintAt(buf, pos);
    if len.Err? then Err(len.error)
    else if len.value.1 + len.value.0 > |buf| then Err(BufferTruncated)
    else Ok((buf[len.value.1..len.value.1 + len.value.0], len.value.1 + len.value.0))
  }

  method ReadBuffer(buf: seq<byte>, pos: nat) returns (r: Result<(seq<byte>, nat)>)
    ensures r == ReadBufferAt(buf, pos)
  {
    var len := ReadVarint(buf, pos);
    if len.Err? { return Err(len.error); }
    var start, n := len.value.1, len.value.0;
    if start + n > |buf| { return Err(BufferTruncated); }
    return Ok((buf[start..start + n], start + n));
  }

  lemma BufferRoundTrip(pre: seq<byte>, bytes: seq<byte>, rest: seq<byte>)
    requires |bytes| < U64
    ensures ReadBufferAt(pre + BufferBytes(bytes) + rest, |pre|) == Ok((bytes, |pre| + |BufferBytes(bytes)|))
  {
    var buf := pre + BufferBytes(bytes) + rest;
    var head := Varint(|bytes|);
    assert buf == pre + head + (bytes + rest);
    VarintRoundTrip(pre, |bytes|, bytes + rest);
    assert buf[|pre| + |head|..|pre| + |head| + |bytes|] == bytes;
  }

  // ---------------------------------------------------------------- messages

  const MSG_SYNC := 0
  const MSG_AWARENESS := 1
  const SYNC_STEP_1 := 0
  const SYNC_STEP_2 := 1
  const SYNC_UPDATE := 2

  /** A document is the set of operations it holds; a state vector names a set of them. */
  type Ops = set<nat>

  /** The document library's encodings, of which only their laws are known. */
  datatype Encoding = Encoding(
    svBytes: Ops -> seq<byte>, svOf: seq<byte> -> Option<Ops>,
    updateBytes: Ops -> seq<byte>, updateOf: seq<byte> -> Option<Ops>)

  ghost predicate Lawful(e: Encoding) {
    && (forall s: Ops :: e.svOf(e.svBytes(s)) == Some(s))
    && (forall s: Ops :: e.updateOf(e.updateBytes(s)) == Some(s))
  }

  /** A bound on the operations of a document. */
  ghost function Bound(s: Ops): (n: nat)
    ensures forall x :: x in s ==> x < n
  {
    if s == {} then 0
    else
      var x :| x in s;
      var rest := Bound(s - {x});
      assert forall y :: y in s ==> y == x || y in s - {x};
      if x < rest then rest else x + 1
  }

  /** One byte for every number below the bound: whether the document has it. */
  ghost function Flags(s: Ops): seq<byte> {
    seq(Bound(s), i => if i in s then 1 else 0)
  }

  ghost function Flagged(bytes: seq<byte>): Ops {
    set i: nat | i < |bytes| && bytes[i] == 1
  }

  /** The laws can be met. */
  lemma SomeEncoding()
    ensures exists e: Encoding :: Lawful(e)
  {
    var e := Encoding(s => Flags(s), bytes => Some(Flagged(bytes)), s => Flags(s), bytes => Some(Flagged(bytes)));
    forall s: Ops ensures Flagged(Flags(s)) == s {
    }
    assert Lawful(e);
  }

  datatype Msg = Step1(sv: Ops) | Step2(ops: Ops) | Update(ops: Ops) | Awareness(blob: seq<byte>)

  function SyncBytes(sub: nat, payload: seq<byte>): seq<byte> {
    Varint(MSG_SYNC) + (Varint(sub) + BufferBytes(payload))
  }

  function MsgBytes(e: Encoding, m: Msg): seq<byte> {
    match m
    case Step1(sv) => SyncBytes(SYNC_STEP_1, e.svBytes(sv))
    case Step2(ops) => SyncBytes(SYNC_STEP_2, e.updateBytes(ops))
    case Update(ops) => SyncBytes(SYNC_UPDATE, e.updateBytes(ops))
    case Awareness(blob) => Varint(MSG_AWARENESS) + BufferBytes(blob)
  }

  /** The bytes of the y-protocol: two type bytes before a sync payload, one before an awareness one,
      and a payload shorter than 128 bytes behind its length in one byte. */
  lemma OnTheWire(e: Encoding, s: Ops, blob: seq<byte>)
    ensures MsgBytes(e, Step1(s)) == [0, 0] + BufferBytes(e.svBytes(s))
    ensures MsgBytes(e, Step2(s)) == [0, 1] + BufferBytes(e.updateBytes(s))
    ensures MsgBytes(e, Update(s)) == [0, 2] + BufferBytes(e.updateBytes(s))
    ensures MsgBytes(e, Awareness(blob)) == [1] + BufferBytes(blob)
    ensures |blob| < 128 ==> BufferBytes(blob) == [|blob|] + blob
  {
    SyncWire(0, e.svBytes(s));
    SyncWire(1, e.updateBytes(s));
    SyncWire(2, e.updateBytes(s));
    hide SyncBytes;
  }

  lemma SyncWire(sub: byte, payload: seq<byte>)
    requires sub < 3
    ensures SyncBytes(sub, payload) == [0, sub] + BufferBytes(payload)
  {
    hide BufferBytes;
    assert Varint(0) == [0] && Varint(sub) == [sub];
    Assoc([0], [sub], BufferBytes(payload));
    assert [0] + [sub] == [0, sub];
  }

  function FrameBytes(e: Encoding, msgs: seq<Msg>): seq<byte> {
    if msgs == [] then [] else MsgBytes(e, msgs[0]) + FrameBytes(e, msgs[1..])
  }

  /** What `handle_message` hands back to its caller. */
  datatype Handled = Handled(reply: Option<seq<byte>>, broadcast: Option<seq<byte>>)

  function Merge(existing: Option<seq<byte>>, new_: seq<byte>): seq<byte> {
    if existing.Some? then existing.value + new_ else new_
  }

  /** One sync message whose two type fields are read: the document after it, the reply and the
      broadcast so far, and the cursor; `None` for the cursor stops the loop. */
  datatype Turn = Turn(ops: Ops, out: Handled, next: Option<nat>)

  function SyncTurn(e: Encoding, ops: Ops, msg: seq<byte>, pos: nat, sub: nat, out: Handled): (r: Result<Turn>)
    ensures r.Ok? && r.value.next.Some? ==> pos < r.value.next.value <= |msg|
  {
    if sub == SYNC_STEP_1 then
      var b := ReadBufferAt(msg, pos);
      if b.Err? then Err(b.error)
      else
        var sv := e.svOf(b.value.0);
        if sv.None? then Err(BadStateVector)
        else
          var step2 := SyncBytes(SYNC_STEP_2, e.updateBytes(ops - sv.value));
          Ok(Turn(ops, out.(reply := Some(Merge(out.reply, step2))), Some(b.value.1)))
    else if sub == SYNC_STEP_2 || sub == SYNC_UPDATE then
      var b := ReadBufferAt(msg, pos);
      if b.Err? then Err(b.error)
      else
        var update := e.updateOf(b.value.0);
        if update.None? then Err(BadUpdate)
        else
          Ok(Turn(ops + update.value,
                  if out.broadcast.None? then out.(broadcast := Some(b.value.0)) else out,
                  Some(b.value.1)))
    else
      Ok(Turn(ops, out, None))
  }

  /** One round of the loop. */
  function MessageTurn(e: Encoding, ops: Ops, msg: seq<byte>, pos: nat, out: Handled): (r: Result<Turn>)
    ensures r.Ok? && r.value.next.Some? ==> pos < r.value.next.value <= |msg|
  {
    var kind := ReadVarintAt(msg, pos);
    if kind.Err? then Err(kind.error)
    else if kind.value.0 == MSG_SYNC then
      var sub := ReadVarintAt(msg, kind.value.1);
      if sub.Err? then Err(sub.error)
      else SyncTurn(e, ops, msg, sub.value.1, sub.value.0, out)
    else if kind.value.0 == MSG_AWARENESS then
      var b := ReadBufferAt(msg, kind.value.1);
      if b.Err? then Err(b.error) else Ok(Turn(ops, out, Some(b.value.1)))
    else
      Ok(Turn(ops, out, None))
  }

  /** The loop from `pos` on.  An error keeps what was applied before it, but loses the reply
      and the broadcast. */
  function HandleFrom(e: Encoding, ops: Ops, msg: seq<byte>, pos: nat, out: Handled): (Ops, Result<Handled>)
    decreases if pos <= |msg| then |msg| - pos else 0
  {
    if pos >= |msg| then (ops, Ok(out))
    else
      var t := MessageTurn(e, ops, msg, pos, out);
      if t.Err? then (ops, Err(t.error))
      else if t.value.next.None? then (t.value.ops, Ok(t.value.out))
      else HandleFrom(e, t.value.ops, msg, t.value.next.value, t.value.out)
  }

  class Doc {
    var ops: Ops

    constructor (initial: Ops)
      ensures ops == initial
    {
      ops := initial;
    }
  }

  const NOTHING: Handled := Handled(None, None)

  method DecodeTurn(e: Encoding, ops: Ops, msg: seq<byte>, pos: nat, out: Handled) returns (r: Result<Turn>)
    ensures r == MessageTurn(e, ops, msg, pos, out)
  {
    var kind := ReadVarint(msg, pos);
    if kind.Err? { return Err(kind.error); }
    var p := kind.value.1;
    if kind.value.0 == MSG_SYNC {
      var sub := ReadVarint(msg, p);
      if sub.Err? { return Err(sub.error); }
      p := sub.value.1;
      if sub.value.0 == SYNC_STEP_1 {
        var b := ReadBuffer(msg, p);
        if b.Err? { return Err(b.error); }
        var sv := e.svOf(b.value.0);
        if sv.None? { return Err(BadStateVector); }
        var step2 := WriteSync(SYNC_STEP_2, e.updateBytes(ops - sv.value));
        return Ok(Turn(ops, out.(reply := Some(Merge(out.reply, step2))), Some(b.value.1)));
      } else if sub.value.0 == SYNC_STEP_2 || sub.value.0 == SYNC_UPDATE {
        var b := ReadBuffer(msg, p);
        if b.Err? { return Err(b.error); }
        var update := e.updateOf(b.value.0);
        if update.None? { return Err(BadUpdate); }
        var now := out;
        if out.broadcast.None? { now := out.(broadcast := Some(b.value.0)); }
        return Ok(Turn(ops + update.value, now, Some(b.value.1)));
      } else {
        return Ok(Turn(ops, out, None));
      }
    } else if kind.value.0 == MSG_AWARENESS {
      var b := ReadBuffer(msg, p);
      if b.Err? { return Err(b.error); }
      return Ok(Turn(ops, out, Some(b.value.1)));
    } else {
      return Ok(Turn(ops, out, None));
    }
  }

  method WriteSync(sub: nat, payload: seq<byte>) returns (out: seq<byte>)
    ensures out == SyncBytes(sub, payload)
  {
    out := WriteVarint([], MSG_SYNC);
    out := WriteVarint(out, sub);
    out := WriteVarint(out, |payload|);
    out := out + payload;
  }

  /** `handle_message`. */
  method HandleMessage(e: Encoding, doc: Doc, msg: seq<byte>) returns (r: Result<Handled>)
    modifies doc
    ensures (doc.ops, r) == HandleFrom(e, old(doc.ops), msg, 0, NOTHING)
    ensures old(doc.ops) <= doc.ops
  {
    HandleGrows(e, doc.ops, msg, 0, NOTHING);
    var pos: nat := 0;
    var out := NOTHING;
    while pos < |msg|
      invariant HandleFrom(e, doc.ops, msg, pos, out) == HandleFrom(e, old(doc.ops), msg, 0, NOTHING)
      decreases |msg| - pos
    {
      var t := DecodeTurn(e, doc.ops, msg, pos, out);
      if t.Err? { return Err(t.error); }
      doc.ops := t.value.ops;
      out := t.value.out;
      if t.value.next.None? { return Ok(out); }
      pos := t.value.next.value;
    }
    return Ok(out);
  }

  /** Whatever comes in, and whether it is understood or not, no operation is taken away. */
  lemma {:induction false} HandleGrows(e: Encoding, ops: Ops, msg: seq<byte>, pos: nat, out: Handled)
    ensures ops <= HandleFrom(e, ops, msg, pos, out).0
    decreases if pos <= |msg| then |msg| - pos else 0
  {
    if pos < |msg| {
      var t := MessageTurn(e, ops, msg, pos, out);
      TurnGrows(e, ops, msg, pos, out);
      hide MessageTurn;
      if t.Ok? && t.value.next.Some? {
        HandleGrows(e, t.value.ops, msg, t.value.next.value, t.value.out);
      }
    }
  }

  lemma TurnGrows(e: Encoding, ops: Ops, msg: seq<byte>, pos: nat, out: Handled)
    ensures var t := MessageTurn(e, ops, msg, pos, out); t.Ok? ==> ops <= t.value.ops
  {
    hide ReadVarintAt, ReadBufferAt;
  }

  // ---------------------------------------------------------------- what a frame means

  /** The effect of a list of messages on a document: its new content, the answers to its
      state vectors, and the first update, the only one that is passed on. */
  datatype Effect = Effect(ops: Ops, replies: seq<Msg>, update: Option<Ops>)

  function Act(st: Effect, m: Msg): Effect {
    match m
    case Step1(sv) => st.(replies := st.replies + [Step2(st.ops - sv)])
    case Step2(u) => st.(ops := st.ops + u, update := if st.update.None? then Some(u) else st.update)
    case Update(u) => st.(ops := st.ops + u, update := if st.update.None? then Some(u) else st.update)
    case Awareness(_) => st
  }

  function ActAll(st: Effect, msgs: seq<Msg>): Effect
    decreases |msgs|
  {
    if msgs == [] then st else ActAll(Act(st, msgs[0]), msgs[1..])
  }

  function EncodedEffect(e: Encoding, st: Effect): Handled {
    Handled(if st.replies == [] then None else Some(FrameBytes(e, st.replies)),
            if st.update.None? then None else Some(e.updateBytes(st.update.value)))
  }

  /** The length of the payload fits the 64 bits it is written in. */
  ghost predicate Sendable(e: Encoding, m: Msg) {
    match m
    case Step1(sv) => |e.svBytes(sv)| < U64
    case Step2(ops) => |e.updateBytes(ops)| < U64
    case Update(ops) => |e.updateBytes(ops)| < U64
    case Awareness(blob) => |blob| < U64
  }

  lemma {:induction false} FrameAppend(e: Encoding, msgs: seq<Msg>, m: Msg)
    ensures FrameBytes(e, msgs + [m]) == FrameBytes(e, msgs) + MsgBytes(e, m)
  {
    var all := msgs + [m];
    if msgs == [] {
      assert all[0] == m && all[1..] == [];
    } else {
      assert all[0] == msgs[0] && all[1..] == msgs[1..] + [m];
      FrameAppend(e, msgs[1..], m);
      Assoc(MsgBytes(e, msgs[0]), FrameBytes(e, msgs[1..]), MsgBytes(e, m));
    }
  }

  lemma Regroup(pre: seq<byte>, a: seq<byte>, b: seq<byte>, c: seq<byte>, rest: seq<byte>)
    ensures pre + (a + (b + c)) + rest == pre + a + (b + (c + rest))
    ensures pre + (a + (b + c)) + rest == (pre + a) + b + (c + rest)
    ensures pre + (a + (b + c)) + rest == (pre + a + b) + c + rest
    ensures |pre + (a + (b + c))| == |pre| + |a| + |b| + |c|
  {
  }

  /** `msg` holds a sync message of this type and payload at `pos`, ending at `next`. */
  ghost predicate SyncAt(msg: seq<byte>, pos: nat, sub: nat, payload: seq<byte>, next: nat) {
    var kind := ReadVarintAt(msg, pos);
    && kind.Ok? && kind.value.0 == MSG_SYNC
    && var type_ := ReadVarintAt(msg, kind.value.1);
    && type_.Ok? && type_.value.0 == sub
    && ReadBufferAt(msg, type_.value.1) == Ok((payload, next))
  }

  /** The type fields and the payload of a sync message are read back. */
  lemma SyncHeader(pre: seq<byte>, sub: nat, payload: seq<byte>, rest: seq<byte>)
    requires sub < U64 && |payload| < U64
    ensures SyncAt(pre + SyncBytes(sub, payload) + rest, |pre|, sub, payload, |pre| + |SyncBytes(sub, payload)|)
  {
    var a, b, c := Varint(MSG_SYNC), Varint(sub), BufferBytes(payload);
    Regroup(pre, a, b, c, rest);
    VarintRoundTrip(pre, MSG_SYNC, b + (c + rest));
    VarintRoundTrip(pre + a, sub, c + rest);
    BufferRoundTrip(pre + a + b, payload, rest);
  }

  lemma AwarenessHeader(pre: seq<byte>, blob: seq<byte>, rest: seq<byte>)
    requires |blob| < U64
    ensures var msg := pre + (Varint(MSG_AWARENESS) + BufferBytes(blob)) + rest;
            var p1 := |pre| + |Varint(MSG_AWARENESS)|;
            && ReadVarintAt(msg, |pre|) == Ok((MSG_AWARENESS, p1))
            && ReadBufferAt(msg, p1) == Ok((blob, |pre| + |Varint(MSG_AWARENESS) + BufferBytes(blob)|))
  {
    var msg := pre + (Varint(MSG_AWARENESS) + BufferBytes(blob)) + rest;
    var a, c := Varint(MSG_AWARENESS), BufferBytes(blob);
    assert msg == pre + a + (c + rest);
    VarintRoundTrip(pre, MSG_AWARENESS, c + rest);
    assert msg == (pre + a) + c + rest;
    BufferRoundTrip(pre + a, blob, rest);
  }

  /** The loop is at `pos`, and one round of it does what `m` means and moves on to `next`. */
  ghost predicate TurnIs(e: Encoding, st: Effect, msg: seq<byte>, pos: nat, m: Msg, next: nat) {
    MessageTurn(e, st.ops, msg, pos, EncodedEffect(e, st))
      == Ok(Turn(Act(st, m).ops, EncodedEffect(e, Act(st, m)), Some(next)))
  }

  lemma Step1Acts(e: Encoding, st: Effect, msg: seq<byte>, pos: nat, sv: Ops, next: nat)
    requires Lawful(e) && SyncAt(msg, pos, SYNC_STEP_1, e.svBytes(sv), next)
    ensures TurnIs(e, st, msg, pos, Step1(sv), next)
  {
    var answer := Step2(st.ops - sv);
    FrameAppend(e, st.replies, answer);
    assert e.svOf(e.svBytes(sv)) == Some(sv);
    assert Merge(EncodedEffect(e, st).reply, MsgBytes(e, answer)) == FrameBytes(e, st.replies + [answer]);
  }

  lemma UpdateActs(e: Encoding, st: Effect, msg: seq<byte>, pos: nat, m: Msg, next: nat)
    requires Lawful(e) && (m.Step2? || m.Update?)
    requires SyncAt(msg, pos, if m.Step2? then SYNC_STEP_2 else SYNC_UPDATE, e.updateBytes(m.ops), next)
    ensures TurnIs(e, st, msg, pos, m, next)
  {
    assert e.updateOf(e.updateBytes(m.ops)) == Some(m.ops);
  }

  lemma SyncTurnActs(e: Encoding, st: Effect, pre: seq<byte>, m: Msg, rest: seq<byte>)
    requires Lawful(e) && Sendable(e, m) && !m.Awareness?
    ensures TurnIs(e, st, pre + MsgBytes(e, m) + rest, |pre|, m, |pre| + |MsgBytes(e, m)|)
  {
    var msg, next := pre + MsgBytes(e, m) + rest, |pre| + |MsgBytes(e, m)|;
    if m.Step1? {
      SyncHeader(pre, SYNC_STEP_1, e.svBytes(m.sv), rest);
      Step1Acts(e, st, msg, |pre|, m.sv, next);
    } else {
      SyncHeader(pre, if m.Step2? then SYNC_STEP_2 else SYNC_UPDATE, e.updateBytes(m.ops), rest);
      UpdateActs(e, st, msg, |pre|, m, next);
    }
  }

  lemma AwarenessTurnActs(e: Encoding, st: Effect, pre: seq<byte>, m: Msg, rest: seq<byte>)
    requires m.Awareness? && |m.blob| < U64
    ensures TurnIs(e, st, pre + MsgBytes(e, m) + rest, |pre|, m, |pre| + |MsgBytes(e, m)|)
  {
    AwarenessHeader(pre, m.blob, rest);
  }

  lemma TurnMoves(e: Encoding, st: Effect, msg: seq<byte>, pos: nat, m: Msg, next: nat)
    requires TurnIs(e, st, msg, pos, m, next) && pos < |msg|
    ensures HandleFrom(e, st.ops, msg, pos, EncodedEffect(e, st))
         == HandleFrom(e, Act(st, m).ops, msg, next, EncodedEffect(e, Act(st, m)))
  {
  }

  lemma {:induction false} FrameActs(e: Encoding, st: Effect, pre: seq<byte>, msgs: seq<Msg>, tail: seq<byte>)
    requires Lawful(e) && forall i :: 0 <= i < |msgs| ==> Sendable(e, msgs[i])
    ensures var msg, now := pre + FrameBytes(e, msgs) + tail, ActAll(st, msgs);
            HandleFrom(e, st.ops, msg, |pre|, EncodedEffect(e, st))
            == HandleFrom(e, now.ops, msg, |pre + FrameBytes(e, msgs)|, EncodedEffect(e, now))
    ensures tail == [] ==>
              HandleFrom(e, st.ops, pre + FrameBytes(e, msgs), |pre|, EncodedEffect(e, st))
              == (ActAll(st, msgs).ops, Ok(EncodedEffect(e, ActAll(st, msgs))))
    decreases |msgs|
  {
    hide Act, MsgBytes, TurnIs, EncodedEffect, Lawful;
    assert tail == [] ==> pre + FrameBytes(e, msgs) + tail == pre + FrameBytes(e, msgs);
    if msgs == [] {
      assert pre + [] == pre;
    } else {
      var first, rest := msgs[0], FrameBytes(e, msgs[1..]) + tail;
      var m := MsgBytes(e, first);
      Assoc(m, FrameBytes(e, msgs[1..]), tail);
      Assoc(pre, m, FrameBytes(e, msgs[1..]));
      Assoc(pre, m, rest);
      Assoc(pre, m + FrameBytes(e, msgs[1..]), tail);
      Assoc(pre + m, FrameBytes(e, msgs[1..]), tail);
      if first.Awareness? {
        AwarenessTurnActs(e, st, pre, first, rest);
      } else {
        SyncTurnActs(e, st, pre, first, rest);
      }
      MsgNonempty(e, first);
      TurnMoves(e, st, pre + m + rest, |pre|, first, |pre + m|);
      FrameActs(e, Act(st, first), pre + m, msgs[1..], tail);
    }
  }

  lemma MsgNonempty(e: Encoding, m: Msg)
    ensures |MsgBytes(e, m)| >= 1
  {
  }

  // ---------------------------------------------------------------- what a list of messages comes to

  /** The operations a message brings: an answer and an update bring theirs, nothing else any. */
  predicate Brings(m: Msg, x: nat) {
    (m.Step2? || m.Update?) && x in m.ops
  }

  /** The document once the first `n` messages are handled. */
  ghost predicate Holds(ops: Ops, msgs: seq<Msg>, n: nat, now: Ops) {
    n <= |msgs| && forall x: nat :: x in now <==> x in ops || exists i :: 0 <= i < n && Brings(msgs[i], x)
  }

  /** How many state vectors are among the first `n` messages. */
  function Asked(msgs: seq<Msg>, n: nat): (k: nat)
    requires n <= |msgs|
    ensures k <= n
  {
    if n == 0 then 0 else Asked(msgs, n - 1) + (if msgs[n - 1].Step1? then 1 else 0)
  }

  /** The state vector at `i` is answered, in its turn, by what the document then holds beyond it. */
  ghost predicate Answered(ops: Ops, msgs: seq<Msg>, replies: seq<Msg>, i: nat)
    requires i < |msgs|
  {
    msgs[i].Step1? ==>
      && Asked(msgs, i) < |replies| && replies[Asked(msgs, i)].Step2?
      && exists before: Ops :: Holds(ops, msgs, i, before) && replies[Asked(msgs, i)].ops == before - msgs[i].sv
  }

  /** The update is the first one, if there is any. */
  ghost predicate FirstUpdate(msgs: seq<Msg>, n: nat, update: Option<Ops>)
    requires n <= |msgs|
  {
    if update.None? then forall i :: 0 <= i < n ==> !msgs[i].Step2? && !msgs[i].Update?
    else
      exists i :: 0 <= i < n && (msgs[i].Step2? || msgs[i].Update?) && msgs[i].ops == update.value
                  && forall j :: 0 <= j < i ==> !msgs[j].Step2? && !msgs[j].Update?
  }

  /** What handling the first `n` messages in order comes to. */
  ghost predicate Comes(ops: Ops, msgs: seq<Msg>, n: nat, st: Effect) {
    && Holds(ops, msgs, n, st.ops) && |st.replies| == Asked(msgs, n) && FirstUpdate(msgs, n, st.update)
    && forall i :: 0 <= i < n ==> Answered(ops, msgs, st.replies, i)
  }

  lemma ComesNext(ops: Ops, msgs: seq<Msg>, n: nat, st: Effect)
    requires Comes(ops, msgs, n, st) && n < |msgs|
    ensures Comes(ops, msgs, n + 1, Act(st, msgs[n]))
  {
    var m, now := msgs[n], Act(st, msgs[n]);
    forall x: nat ensures x in now.ops <==> x in ops || exists i :: 0 <= i < n + 1 && Brings(msgs[i], x) {
      assert x in now.ops <==> x in st.ops || Brings(m, x);
    }
    assert Holds(ops, msgs, n, st.ops);
    forall i | 0 <= i < n + 1 ensures Answered(ops, msgs, now.replies, i) {
      if i < n {
        assert Answered(ops, msgs, st.replies, i);
        AnswerStays(ops, msgs, st.replies, now.replies, i);
      }
    }
    if st.update.Some? {
      var i :| 0 <= i < n && (msgs[i].Step2? || msgs[i].Update?) && msgs[i].ops == st.update.value
               && forall j :: 0 <= j < i ==> !msgs[j].Step2? && !msgs[j].Update?;
      assert FirstUpdate(msgs, n + 1, now.update);
    }
  }

  lemma AnswerStays(ops: Ops, msgs: seq<Msg>, was: seq<Msg>, now: seq<Msg>, i: nat)
    requires i < |msgs| && Answered(ops, msgs, was, i) && |was| <= |now| && was == now[..|was|]
    ensures Answered(ops, msgs, now, i)
  {
    hide Holds;
    if msgs[i].Step1? {
      assert now[Asked(msgs, i)] == now[..|was|][Asked(msgs, i)];
    }
  }

  lemma {:induction false} ActAllComes(ops: Ops, msgs: seq<Msg>, n: nat, st: Effect)
    requires Comes(ops, msgs, n, st)
    ensures Comes(ops, msgs, |msgs|, ActAll(st, msgs[n..]))
    decreases |msgs| - n
  {
    hide Comes, Act;
    if n < |msgs| {
      ComesNext(ops, msgs, n, st);
      assert msgs[n..][0] == msgs[n] && msgs[n..][1..] == msgs[n + 1..];
      ActAllComes(ops, msgs, n + 1, Act(st, msgs[n]));
    } else {
      ComesLength(ops, msgs, n, st);
      assert msgs[n..] == [];
    }
  }

  lemma ComesLength(ops: Ops, msgs: seq<Msg>, n: nat, st: Effect)
    requires Comes(ops, msgs, n, st)
    ensures n <= |msgs|
  {
  }

  lemma NothingYet(e: Encoding, ops: Ops)
    ensures EncodedEffect(e, Effect(ops, [], None)) == NOTHING
  {
  }

  /** Handling the concatenation of any encoded messages decodes exactly that list: the document
      gains what answers and updates bring and nothing else, every state vector is answered in its turn,
      and the first update is passed on. */
  lemma HandleFrame(e: Encoding, ops: Ops, msgs: seq<Msg>)
    requires Lawful(e) && forall i :: 0 <= i < |msgs| ==> Sendable(e, msgs[i])
    ensures var st := ActAll(Effect(ops, [], None), msgs);
            && HandleFrom(e, ops, FrameBytes(e, msgs), 0, NOTHING) == (st.ops, Ok(EncodedEffect(e, st)))
            && Comes(ops, msgs, |msgs|, st)
  {
    hide Act, ActAll, HandleFrom, FrameBytes, Sendable, Lawful, EncodedEffect;
    NothingYet(e, ops);
    assert [] + FrameBytes(e, msgs) == FrameBytes(e, msgs) && FrameBytes(e, msgs) + [] == FrameBytes(e, msgs);
    assert msgs[0..] == msgs;
    ActAllComes(ops, msgs, 0, Effect(ops, [], None));
    FrameActs(e, Effect(ops, [], None), [], msgs, []);
  }

  /** What follows the messages is handled from where they leave off. */
  lemma FrameThen(e: Encoding, ops: Ops, msgs: seq<Msg>, rest: seq<byte>)
    requires Lawful(e) && forall i :: 0 <= i < |msgs| ==> Sendable(e, msgs[i])
    ensures var st := ActAll(Effect(ops, [], None), msgs);
            var msg := FrameBytes(e, msgs) + rest;
            HandleFrom(e, ops, msg, 0, NOTHING) == HandleFrom(e, st.ops, msg, |FrameBytes(e, msgs)|, EncodedEffect(e, st))
  {
    hide Act, ActAll, HandleFrom, FrameBytes, Sendable, Lawful, EncodedEffect;
    NothingYet(e, ops);
    assert [] + FrameBytes(e, msgs) + rest == FrameBytes(e, msgs) + rest && [] + FrameBytes(e, msgs) == FrameBytes(e, msgs);
    FrameActs(e, Effect(ops, [], None), [], msgs, rest);
  }

  /** A message of a type that is neither sync nor awareness ends the frame: what came before it counts,
      and nothing behind it is looked at. */
  lemma UnknownEnds(e: Encoding, ops: Ops, msgs: seq<Msg>, kind: nat, rest: seq<byte>)
    requires Lawful(e) && forall i :: 0 <= i < |msgs| ==> Sendable(e, msgs[i])
    requires kind != MSG_SYNC && kind != MSG_AWARENESS && kind < U64
    ensures HandleFrom(e, ops, FrameBytes(e, msgs) + (Varint(kind) + rest), 0, NOTHING)
         == HandleFrom(e, ops, FrameBytes(e, msgs), 0, NOTHING)
  {
    var bytes := FrameBytes(e, msgs);
    HandleFrame(e, ops, msgs);
    FrameThen(e, ops, msgs, Varint(kind) + rest);
    Assoc(bytes, Varint(kind), rest);
    VarintRoundTrip(bytes, kind, rest);
  }

  /** The same for a sync message of a type of its own. */
  lemma UnknownSyncEnds(e: Encoding, ops: Ops, msgs: seq<Msg>, sub: nat, rest: seq<byte>)
    requires Lawful(e) && forall i :: 0 <= i < |msgs| ==> Sendable(e, msgs[i])
    requires 3 <= sub < U64
    ensures HandleFrom(e, ops, FrameBytes(e, msgs) + (Varint(MSG_SYNC) + (Varint(sub) + rest)), 0, NOTHING)
         == HandleFrom(e, ops, FrameBytes(e, msgs), 0, NOTHING)
  {
    hide ReadVarintAt, HandleFrom, Varint, FrameBytes, Act, ActAll, EncodedEffect, Comes, Lawful, Sendable;
    var bytes, a, b := FrameBytes(e, msgs), Varint(MSG_SYNC), Varint(sub);
    HandleFrame(e, ops, msgs);
    FrameThen(e, ops, msgs, a + (b + rest));
    Assoc(bytes, a, b + rest);
    VarintRoundTrip(bytes, MSG_SYNC, b + rest);
    Assoc(bytes + a, b, rest);
    VarintRoundTrip(bytes + a, sub, rest);
    var st := ActAll(Effect(ops, [], None), msgs);
    UnknownSyncStops(e, st.ops, bytes + (a + (b + rest)), |bytes|, sub, EncodedEffect(e, st));
  }

  lemma UnknownSyncStops(e: Encoding, ops: Ops, msg: seq<byte>, pos: nat, sub: nat, out: Handled)
    requires pos < |msg| && sub >= 3
    requires var kind := ReadVarintAt(msg, pos);
             kind.Ok? && kind.value.0 == MSG_SYNC
             && var type_ := ReadVarintAt(msg, kind.value.1); type_.Ok? && type_.value.0 == sub
    ensures HandleFrom(e, ops, msg, pos, out) == (ops, Ok(out))
  {
    hide ReadVarintAt, ReadBufferAt;
  }

  /** A frame cut off behind some messages is refused, but what they brought stays. */
  lemma CutOffKeeps(e: Encoding, ops: Ops, msgs: seq<Msg>, rest: seq<byte>)
    requires Lawful(e) && forall i :: 0 <= i < |msgs| ==> Sendable(e, msgs[i])
    requires rest != [] && ReadVarintAt(FrameBytes(e, msgs) + rest, |FrameBytes(e, msgs)|).Err?
    ensures var r := HandleFrom(e, ops, FrameBytes(e, msgs) + rest, 0, NOTHING);
            r.1.Err? && r.0 == HandleFrom(e, ops, FrameBytes(e, msgs), 0, NOTHING).0
  {
    hide ReadVarintAt;
    HandleFrame(e, ops, msgs);
    FrameThen(e, ops, msgs, rest);
  }
}
