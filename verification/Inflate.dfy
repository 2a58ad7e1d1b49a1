/** The block-level half of the reader: `stbi__parse_huffman_block`,
    `stbi__parse_uncompressed_block` and `stbi__parse_zlib`.

    The methods accept any input.  Each one takes, as ghost arguments, what the stream
    might spell; when it does, the method reads exactly that. */
module Inflate {
  import opened Bits
  import opened HuffmanCode
  import opened HuffmanTable
  import opened ZlibBits
  import opened Deflate

  lemma FieldCancel(v: nat, w: nat, n: nat, a: seq<bool>, b: seq<bool>)
    requires v < Pow2(n) && w < Pow2(n)
    requires BitsOf(v, n) + a == BitsOf(w, n) + b
    ensures v == w && a == b
  {
    var x, y := BitsOf(v, n) + a, BitsOf(w, n) + b;
    assert BitsOf(v, n) == x[..n] && BitsOf(w, n) == y[..n];
    assert a == x[n..] && b == y[n..];
    BitsInjective(v, w, n);
    LowSmall(v, n);
    LowSmall(w, n);
  }

  lemma CodeCancel(l: Lengths, i: nat, j: nat, a: seq<bool>, b: seq<bool>)
    requires Acceptable(l) && Used(l, i) && Used(l, j)
    requires CodeBits(l, i) + a == CodeBits(l, j) + b
    ensures i == j && a == b
  {
    var s := CodeBits(l, i) + a;
    assert CodeBits(l, i) <= s && CodeBits(l, j) <= s;
    PrefixFree(l, s, i, j);
    assert a == s[l[i]..] && b == s[l[i]..];
  }

  /** `stbi__zreceive`. */
  method ReceiveField(z: ZBuf, n: nat, ghost k: nat, ghost more: seq<bool>) returns (v: nat)
    requires z.Valid() && 0 < n <= 24
    modifies z`pos, z`numBits, z`codeBuffer
    ensures z.Valid() && v < Pow2(n)
    ensures z.Ahead() <= (if old(z.Ahead()) <= n then 0 else old(z.Ahead()) - n)
    ensures old(z.Ahead()) == 0 ==> v == 0
    ensures n > old(z.numBits) ==> z.numBits + n > 24
    ensures old(z.Rest()) == BitsOf(k, n) + more && k < Pow2(n) && (|more| + n >= 32 || n <= old(z.numBits)) ==>
              v == k && z.Rest() == more
    ensures Took(old(z.Rest()), BitsOf(v, n), z.Rest())
  {
    hide Took;
    ghost var was := z.Rest();
    ghost var near := |more| + n >= 32 || n <= z.numBits;
    v := z.Receive(n);
    if was == BitsOf(k, n) + more && k < Pow2(n) && near {
      FieldCancel(k, v, n, more, z.Rest());
    }
  }

  /** `stbi__zreceive`, skipped for a width of zero as its callers do. */
  method TakeField(z: ZBuf, n: nat, ghost k: nat, ghost more: seq<bool>) returns (v: nat)
    requires z.Valid() && n <= 24
    modifies z`pos, z`numBits, z`codeBuffer
    ensures z.Valid() && z.Ahead() <= old(z.Ahead()) && v < Pow2(n)
    ensures old(z.Rest()) == BitsOf(k, n) + more && k < Pow2(n) && |more| >= 32 ==> v == k && z.Rest() == more
    ensures Took(old(z.Rest()), BitsOf(v, n), z.Rest())
  {
    if n == 0 {
      assert BitsOf(k, 0) + more == more;
      TookNothing(z.Rest());
      return 0;
    }
    v := ReceiveField(z, n, k, more);
  }

  method TakeCode(z: ZBuf, t: ZHuffman, ghost l: Lengths, ghost i: nat, ghost more: seq<bool>) returns (sym: int)
    requires z.Valid() && t.Describes(l)
    modifies z`pos, z`numBits, z`codeBuffer, z`hitEofOnce
    ensures z.Valid() && z.Ahead() <= old(z.Ahead()) && -1 <= sym < |l|
    ensures Used(l, i) && old(z.Rest()) == CodeBits(l, i) + more && |more| >= 32 ==>
              sym == i && z.Rest() == more && z.hitEofOnce == old(z.hitEofOnce)
    ensures sym >= 0 ==> Used(l, sym) && Took(old(z.Rest()), CodeBits(l, sym), z.Rest())
  {
    hide Took;
    ghost var was := z.Rest();
    sym := z.Decode(t, l);
    if Used(l, i) && was == CodeBits(l, i) + more && |more| >= 32 {
      assert CodeBits(l, i) <= was;
      CodeCancel(l, i, sym, more, z.Rest());
    }
  }

  /** Make room for `n` more bytes: `stbi__zexpand` behind its callers' check. */
  method Reserve(z: ZBuf, n: nat) returns (ok: bool)
    requires z.Valid()
    modifies z`limit
    ensures z.Valid() && z.Ahead() <= old(z.Ahead())
    ensures ok ==> |z.zout| + n <= z.limit
    ensures ok <==> |z.zout| + n <= old(z.Capacity())
    ensures z.Capacity() == old(z.Capacity())
  {
    var cur := |z.zout|;
    RoomBounds(z.limit, z.expandable);
    if n <= z.limit - cur { return true; }
    if !z.expandable { return false; }
    if UINT_MAX - cur < n { return false; }
    while cur + n > z.limit
      invariant z.Valid() && z.Ahead() <= old(z.Ahead()) && z.Capacity() == old(z.Capacity())
      decreases UINT_MAX - z.limit
    {
      if z.limit > UINT_MAX / 2 { return false; }
      z.limit := 2 * z.limit;
    }
    return true;
  }

  lemma {:induction false} RoomBounds(limit: nat, mayGrow: bool)
    requires 1 <= limit <= UINT_MAX
    ensures limit <= Room(limit, mayGrow) <= UINT_MAX
    ensures mayGrow ==> Room(limit, mayGrow) >= 0x8000_0000
    decreases UINT_MAX - limit
  {
    if mayGrow && limit <= UINT_MAX / 2 {
      RoomBounds(2 * limit, mayGrow);
    }
  }

  /** Copy `len` bytes from `dist` back; a distance of one is a run of one byte. */
  method CopyRun(z: ZBuf, len: nat, dist: nat)
    requires z.Valid() && 1 <= dist <= |z.zout| && |z.zout| + len <= z.limit
    modifies z`zout
    ensures z.Valid() && z.Ahead() <= old(z.Ahead()) && z.zout == CopyBack(old(z.zout), len, dist)
  {
    ghost var was := z.zout;
    var left: nat := len;
    if dist == 1 {
      var v := z.zout[|z.zout| - 1];
      while left > 0
        invariant left <= len && |z.zout| == |was| + len - left && z.zout[|z.zout| - 1] == v
        invariant CopyBack(z.zout, left, 1) == CopyBack(was, len, 1)
        invariant z.Valid() && z.Ahead() <= old(z.Ahead())
      {
        z.zout := z.zout + [v];
        left := left - 1;
      }
    } else {
      var p := |z.zout| - dist;
      while left > 0
        invariant left <= len && |z.zout| == |was| + len - left && p == |z.zout| - dist
        invariant CopyBack(z.zout, left, dist) == CopyBack(was, len, dist)
        invariant z.Valid() && z.Ahead() <= old(z.Ahead())
      {
        z.zout := z.zout + [z.zout[p]];
        p := p + 1;
        left := left - 1;
      }
    }
  }

  // The reader's own tables are padded with zeros past the codes RFC 1951 allows.
  const Z_LENGTH_BASE: seq<nat> := LENGTH_BASE + [0, 0]
  const Z_LENGTH_EXTRA: seq<nat> := LENGTH_EXTRA + [0, 0]
  const Z_DIST_BASE: seq<nat> := DIST_BASE + [0, 0]
  const Z_DIST_EXTRA: seq<nat> := DIST_EXTRA + [0, 0]

  lemma LengthTables(i: nat)
    requires i < LENGTH_SYMS
    ensures Z_LENGTH_BASE[i] == LENGTH_BASE[i] >= 3 && Z_LENGTH_EXTRA[i] == LENGTH_EXTRA[i] <= 5
  {
  }

  lemma DistTables(i: nat)
    requires i < DIST_SYMS
    ensures Z_DIST_BASE[i] == DIST_BASE[i] >= 1 && Z_DIST_EXTRA[i] == DIST_EXTRA[i] <= 13
  {
  }

  datatype Status = Failed | Continue | Finished

  /** What the next round of the block loop should find. */
  datatype Expected = AnItem(it: Item) | TheEnd

  ghost predicate Spelled(e: Expected, rest: seq<bool>, ll: Lengths, dl: Lengths, more: seq<bool>) {
    && |more| >= 32
    && (e.AnItem? ==> Spells(ll, dl, e.it) && rest == ItemBits(ll, dl, e.it) + more)
    && (e.TheEnd? ==> Used(ll, END_OF_BLOCK) && rest == CodeBits(ll, END_OF_BLOCK) + more)
  }

  ghost predicate SpelledTail(it: Item, rest: seq<bool>, dl: Lengths, more: seq<bool>) {
    it.Copy? && ItemOk(it) && Used(dl, it.dsym) && |more| >= 32 && rest == TailBits(dl, it) + more
  }

  lemma TailSplit(dl: Lengths, it: Item, more: seq<bool>)
    requires it.Copy? && ItemOk(it) && Used(dl, it.dsym)
    ensures TailBits(dl, it) + more
         == BitsOf(it.lextra, LENGTH_EXTRA[it.lsym])
            + (CodeBits(dl, it.dsym) + (BitsOf(it.dextra, DIST_EXTRA[it.dsym]) + more))
  {
    var a, b, c := BitsOf(it.lextra, LENGTH_EXTRA[it.lsym]), CodeBits(dl, it.dsym), BitsOf(it.dextra, DIST_EXTRA[it.dsym]);
    Assoc(a, b + c, more);
    Assoc(b, c, more);
  }

  /** A copy after its length code has been read: `got`, which took its bits. */
  ghost predicate TookTail(dl: Lengths, lsym: nat, got: Item, was: seq<bool>, now: seq<bool>) {
    got.Copy? && ItemOk(got) && got.lsym == lsym && Used(dl, got.dsym) && Took(was, TailBits(dl, got), now)
  }

  /** The distance code `dsym` and its extra bits have been read. */
  ghost predicate TookDistance(dl: Lengths, dsym: nat, dextra: nat, was: seq<bool>, now: seq<bool>) {
    dsym < DIST_SYMS && Used(dl, dsym) && dextra < Pow2(DIST_EXTRA[dsym])
    && Took(was, CodeBits(dl, dsym) + BitsOf(dextra, DIST_EXTRA[dsym]), now)
  }

  lemma DistanceTaken(dl: Lengths, dsym: nat, dextra: nat, a: seq<bool>, b: seq<bool>, c: seq<bool>)
    requires dsym < DIST_SYMS && Used(dl, dsym) && dextra < Pow2(DIST_EXTRA[dsym])
    requires Took(a, CodeBits(dl, dsym), b) && Took(b, BitsOf(dextra, DIST_EXTRA[dsym]), c)
    ensures TookDistance(dl, dsym, dextra, a, c)
  {
    hide Took;
    TookThen(a, CodeBits(dl, dsym), b, BitsOf(dextra, DIST_EXTRA[dsym]), c);
  }

  lemma TailTaken(dl: Lengths, got: Item, a: seq<bool>, b: seq<bool>, c: seq<bool>)
    requires got.Copy? && got.lsym < LENGTH_SYMS && got.lextra < Pow2(LENGTH_EXTRA[got.lsym])
    requires Took(a, BitsOf(got.lextra, LENGTH_EXTRA[got.lsym]), b) && TookDistance(dl, got.dsym, got.dextra, b, c)
    ensures ItemOk(got) && TookTail(dl, got.lsym, got, a, c)
    ensures CopyLength(got) == LENGTH_BASE[got.lsym] + got.lextra && CopyDistance(got) == DIST_BASE[got.dsym] + got.dextra
  {
    hide Took;
    TookThen(a, BitsOf(got.lextra, LENGTH_EXTRA[got.lsym]), b,
             CodeBits(dl, got.dsym) + BitsOf(got.dextra, DIST_EXTRA[got.dsym]), c);
  }

  /** The distance of a copy, -1 for a code that no distance has. */
  method ReadDistance(z: ZBuf, dt: ZHuffman, ghost dl: Lengths, ghost want: nat, ghost extra: nat, ghost more: seq<bool>)
    returns (dist: int, ghost dsym: nat, ghost dextra: nat)
    requires z.Valid() && dt.Describes(dl)
    modifies z`pos, z`numBits, z`codeBuffer, z`hitEofOnce
    ensures z.Valid() && z.Ahead() <= old(z.Ahead()) && (dist >= 1 || dist == -1)
    ensures want < DIST_SYMS && Used(dl, want) && extra < Pow2(DIST_EXTRA[want]) && |more| >= 32
            && old(z.Rest()) == CodeBits(dl, want) + (BitsOf(extra, DIST_EXTRA[want]) + more) ==>
              z.Rest() == more && z.hitEofOnce == old(z.hitEofOnce) && dist == DIST_BASE[want] + extra
    ensures dist >= 1 ==> TookDistance(dl, dsym, dextra, old(z.Rest()), z.Rest()) && dist == DIST_BASE[dsym] + dextra
  {
    hide Took, TookDistance, CodeBits, BitsOf, ZBuf.Rest, ZBuf.Ahead, ZHuffman.Describes, Pow2;
    ghost var was, after := z.Rest(), more;
    if want < DIST_SYMS { after := BitsOf(extra, DIST_EXTRA[want]) + more; }
    dsym, dextra := 0, 0;
    var sym := TakeCode(z, dt, dl, want, after);
    ghost var then1 := z.Rest();
    if sym < 0 || sym >= 30 { return -1, 0, 0; }
    DistTables(sym);
    var k := TakeField(z, Z_DIST_EXTRA[sym], extra, more);
    dist, dsym, dextra := Z_DIST_BASE[sym] + k, sym, k;
    DistanceTaken(dl, sym, k, was, then1, z.Rest());
  }

  /** What a spelled tail holds, part by part. */
  lemma TailParts(it: Item, rest: seq<bool>, dl: Lengths, more: seq<bool>)
    requires SpelledTail(it, rest, dl, more)
    ensures it.Copy? && ItemOk(it) && Used(dl, it.dsym) && |more| >= 32
    ensures rest == BitsOf(it.lextra, LENGTH_EXTRA[it.lsym])
                    + (CodeBits(dl, it.dsym) + (BitsOf(it.dextra, DIST_EXTRA[it.dsym]) + more))
    ensures CopyLength(it) == LENGTH_BASE[it.lsym] + it.lextra && CopyDistance(it) == DIST_BASE[it.dsym] + it.dextra
  {
    TailSplit(dl, it, more);
  }

  /** Everything of a copy after its length code. */
  method ReadCopy(z: ZBuf, dt: ZHuffman, ghost dl: Lengths, lsym: nat, ghost it: Item, ghost more: seq<bool>)
    returns (len: nat, dist: int, ghost got: Item)
    requires z.Valid() && dt.Describes(dl) && lsym < LENGTH_SYMS
    modifies z`pos, z`numBits, z`codeBuffer, z`hitEofOnce
    ensures z.Valid() && z.Ahead() <= old(z.Ahead()) && len >= 3 && (dist >= 1 || dist == -1)
    ensures SpelledTail(it, old(z.Rest()), dl, more) && it.lsym == lsym ==>
              z.Rest() == more && z.hitEofOnce == old(z.hitEofOnce)
              && len == CopyLength(it) && dist == CopyDistance(it)
    ensures dist >= 1 ==> TookTail(dl, lsym, got, old(z.Rest()), z.Rest()) && len == CopyLength(got) && dist == CopyDistance(got)
  {
    hide Took, TookTail, TookDistance, SpelledTail, CopyLength, CopyDistance, CodeBits, BitsOf, ZBuf.Rest, ZBuf.Ahead,
         ZHuffman.Describes, Pow2;
    ghost var was, lextra, dwant, dextra, after := z.Rest(), 0, 0, 0, more;
    SpelledIsCopy(it, was, dl, more);
    if SpelledTail(it, was, dl, more) && it.lsym == lsym {
      TailParts(it, was, dl, more);
      lextra, dwant, dextra := it.lextra, it.dsym, it.dextra;
      after := CodeBits(dl, dwant) + (BitsOf(dextra, DIST_EXTRA[dwant]) + more);
    }
    LengthTables(lsym);
    var extra := TakeField(z, Z_LENGTH_EXTRA[lsym], lextra, after);
    ghost var then1, dsym, k := z.Rest(), 0, 0;
    len := Z_LENGTH_BASE[lsym] + extra;
    dist, dsym, k := ReadDistance(z, dt, dl, dwant, dextra, more);
    got := Copy(lsym, extra, dsym, k);
    if dist >= 1 { TailTaken(dl, got, was, then1, z.Rest()); }
  }

  method ReadAndCopy(z: ZBuf, dt: ZHuffman, ghost dl: Lengths, lsym: nat, ghost it: Item, ghost more: seq<bool>)
    returns (st: Status, ghost got: Item)
    requires z.Valid() && dt.Describes(dl) && lsym < LENGTH_SYMS
    modifies z
    ensures z.Capacity() == old(z.Capacity())
    ensures z.Valid() && z.Ahead() <= old(z.Ahead()) && st != Finished
    ensures st == Continue ==> |old(z.zout)| < |z.zout|
    ensures SpelledTail(it, old(z.Rest()), dl, more) && it.lsym == lsym
            && Applicable(it, old(z.zout)) && |Apply(it, old(z.zout))| <= old(z.Capacity()) ==>
              st == Continue && z.Rest() == more && z.zout == Apply(it, old(z.zout))
              && z.hitEofOnce == old(z.hitEofOnce)
    ensures st == Continue ==> TookTail(dl, lsym, got, old(z.Rest()), z.Rest())
                               && Applicable(got, old(z.zout)) && z.zout == Apply(got, old(z.zout))
  {
    SpelledIsCopy(it, z.Rest(), dl, more);
    hide TookTail, SpelledTail, Room;
    var len, dist;
    len, dist, got := ReadCopy(z, dt, dl, lsym, it, more);
    st := Failed;
    if dist < 0 || |z.zout| < dist { return; }
    TailIsCopy(dl, lsym, got);
    var ok := Reserve(z, len);
    if !ok { return; }
    CopyRun(z, len, dist);
    st := Continue;
  }

  lemma SpelledIsCopy(it: Item, rest: seq<bool>, dl: Lengths, more: seq<bool>)
    ensures SpelledTail(it, rest, dl, more) ==> it.Copy? && ItemOk(it)
  {
  }

  lemma TailIsCopy(dl: Lengths, lsym: nat, got: Item)
    ensures forall was, now :: TookTail(dl, lsym, got, was, now) ==> got.Copy? && ItemOk(got)
  {
  }

  method PutLiteral(z: ZBuf, b: byte) returns (st: Status)
    requires z.Valid()
    modifies z`zout, z`limit
    ensures z.Capacity() == old(z.Capacity())
    ensures z.Valid() && z.Ahead() <= old(z.Ahead()) && st != Finished
    ensures st == Continue ==> z.zout == old(z.zout) + [b]
    ensures |old(z.zout)| + 1 <= old(z.Capacity()) ==> st == Continue
  {
    var ok := Reserve(z, 1);
    if !ok { return Failed; }
    z.zout := z.zout + [b];
    return Continue;
  }

  /** Act on a decoded literal/length symbol. */
  method FinishItem(z: ZBuf, dt: ZHuffman, ghost dl: Lengths, sym: int, ghost it: Item, ghost more: seq<bool>)
    returns (st: Status, ghost got: Item)
    requires z.Valid() && dt.Describes(dl)
    modifies z
    ensures z.Capacity() == old(z.Capacity())
    ensures z.Valid() && z.Ahead() <= old(z.Ahead())
    ensures st == Continue ==> |old(z.zout)| < |z.zout|
    ensures st == Finished ==> sym == END_OF_BLOCK && z.Rest() == old(z.Rest()) && z.zout == old(z.zout)
    ensures st == Continue ==> TookItem(dl, sym, got, old(z.Rest()), z.Rest())
                               && Applicable(got, old(z.zout)) && z.zout == Apply(got, old(z.zout))
    ensures sym == END_OF_BLOCK && !old(z.hitEofOnce) ==>
              st == Finished && z.Rest() == old(z.Rest()) && z.zout == old(z.zout) && !z.hitEofOnce
    ensures Applicable(it, old(z.zout)) && sym == HeadSym(it) && (it.Copy? ==> Used(dl, it.dsym))
            && old(z.Rest()) == TailBits(dl, it) + more && |more| >= 32
            && |Apply(it, old(z.zout))| <= old(z.Capacity()) ==>
              st == Continue && z.Rest() == more && z.zout == Apply(it, old(z.zout))
              && z.hitEofOnce == old(z.hitEofOnce)
  {
    st, got := Failed, Literal(0);
    if sym < 256 {
      if sym < 0 { return; }
      assert it.Literal? ==> TailBits(dl, it) + more == more;
      got := Literal(sym);
      TookNothing(z.Rest());
      hide Took;
      st := PutLiteral(z, sym);
    } else if sym == 256 {
      if z.hitEofOnce && z.numBits < 16 { return; }
      st := Finished;
    } else {
      if sym >= 286 { return; }
      st, got := ReadAndCopy(z, dt, dl, sym - 257, it, more);
    }
  }

  /** What comes behind the code `sym` has been read: the item `got` starts with it. */
  ghost predicate TookItem(dl: Lengths, sym: int, got: Item, was: seq<bool>, now: seq<bool>) {
    sym == HeadSym(got) && ItemOk(got) && (got.Copy? ==> Used(dl, got.dsym)) && Took(was, TailBits(dl, got), now)
  }

  /** One round of the loop in `stbi__parse_huffman_block`. */
  method ReadItem(z: ZBuf, lt: ZHuffman, dt: ZHuffman, ghost ll: Lengths, ghost dl: Lengths,
                  ghost e: Expected, ghost more: seq<bool>)
    returns (st: Status, ghost got: Item)
    requires z.Valid() && lt.Describes(ll) && dt.Describes(dl)
    modifies z
    ensures z.Capacity() == old(z.Capacity())
    ensures z.Valid() && z.Ahead() <= old(z.Ahead())
    ensures st == Continue ==> |old(z.zout)| < |z.zout|
    ensures st == Continue ==> Spells(ll, dl, got) && Took(old(z.Rest()), ItemBits(ll, dl, got), z.Rest())
                               && Applicable(got, old(z.zout)) && z.zout == Apply(got, old(z.zout))
    ensures st == Finished ==> Used(ll, END_OF_BLOCK) && Took(old(z.Rest()), CodeBits(ll, END_OF_BLOCK), z.Rest())
                               && z.zout == old(z.zout)
    ensures Spelled(e, old(z.Rest()), ll, dl, more) && e.AnItem? && Applicable(e.it, old(z.zout))
            && |Apply(e.it, old(z.zout))| <= old(z.Capacity()) ==>
              st == Continue && z.Rest() == more && z.zout == Apply(e.it, old(z.zout))
              && z.hitEofOnce == old(z.hitEofOnce)
    ensures Spelled(e, old(z.Rest()), ll, dl, more) && e.TheEnd? && !old(z.hitEofOnce) ==>
              st == Finished && z.Rest() == more && z.zout == old(z.zout) && !z.hitEofOnce
  {
    ghost var next, after := END_OF_BLOCK, more;
    if Spelled(e, z.Rest(), ll, dl, more) && e.AnItem? {
      next, after := HeadSym(e.it), TailBits(dl, e.it) + more;
      Assoc(CodeBits(ll, next), TailBits(dl, e.it), more);
    }
    hide Took, Spelled;
    ghost var was := z.Rest();
    var sym := TakeCode(z, lt, ll, next, after);
    ghost var then1 := z.Rest();
    st, got := FinishItem(z, dt, dl, sym, if e.AnItem? then e.it else Literal(0), more);
    if st == Continue { ItemTaken(ll, dl, got, was, then1, z.Rest()); }
  }

  lemma ItemTaken(ll: Lengths, dl: Lengths, got: Item, a: seq<bool>, b: seq<bool>, c: seq<bool>)
    requires Used(ll, HeadSym(got)) && Took(a, CodeBits(ll, HeadSym(got)), b) && TookItem(dl, HeadSym(got), got, b, c)
    ensures Spells(ll, dl, got) && Took(a, ItemBits(ll, dl, got), c)
  {
    hide Took;
    TookThen(a, CodeBits(ll, HeadSym(got)), b, TailBits(dl, got), c);
  }

  /** `stbi__parse_huffman_block`. */
  method ParseHuffmanBlock(z: ZBuf, lt: ZHuffman, dt: ZHuffman, ghost ll: Lengths, ghost dl: Lengths,
                           ghost items: seq<Item>, ghost more: seq<bool>)
    returns (ok: bool, ghost got: seq<Item>)
    requires z.Valid() && lt.Describes(ll) && dt.Describes(dl)
    modifies z
    ensures z.Capacity() == old(z.Capacity())
    ensures z.Valid() && z.Ahead() <= old(z.Ahead())
    ensures ok ==> TookCoded(ll, dl, got, old(z.zout), old(z.Rest()), z.Rest()) && z.zout == Play(got, old(z.zout))
    ensures HuffmanBlock(items, old(z.Rest()), old(z.zout), ll, dl, more) && !old(z.hitEofOnce)
            && |Play(items, old(z.zout))| <= old(z.Capacity()) ==>
              ok && z.Rest() == more && z.zout == Play(items, old(z.zout)) && !z.hitEofOnce
  {
    hide TookItems, TookCoded, Took, HuffmanBlock, BlockAhead, Spelled, Room, ZHuffman.Describes, ZBuf.Rest, ZBuf.Ahead,
         ItemsBits, ItemBits, CodeBits, Spells, SpellsAll, Applicable, Apply, Played, Play, Playable;
    ghost var left, was, out, final := items, z.Rest(), z.zout, Played(items, z.zout);
    ghost var holds := HuffmanBlock(items, was, out, ll, dl, more) && !z.hitEofOnce && |final| <= z.Capacity();
    got := [];
    ItemsStart(ll, dl, out, was);
    if HuffmanBlock(items, was, out, ll, dl, more) { AheadStart(items, was, out, ll, dl, more); }
    while true
      invariant z.Valid() && z.Ahead() <= old(z.Ahead()) && z.Capacity() == old(z.Capacity())
      invariant lt.Describes(ll) && dt.Describes(dl)
      invariant holds ==> BlockAhead(left, z.Rest(), z.zout, ll, dl, more, final) && !z.hitEofOnce && |final| <= z.Capacity()
      invariant TookItems(ll, dl, got, out, was, z.Rest(), z.zout)
      decreases UINT_MAX - |z.zout|
    {
      ghost var before, sofar, e, after := z.Rest(), z.zout, TheEnd, more;
      if holds {
        if left == [] {
          AheadEnd(before, sofar, ll, dl, more, final);
        } else {
          AheadStep(left, before, sofar, ll, dl, more, final);
          e, after := AnItem(left[0]), ItemsBits(ll, dl, left[1..]) + (CodeBits(ll, END_OF_BLOCK) + more);
        }
      }
      var st;
      ghost var it;
      st, it := ReadItem(z, lt, dt, ll, dl, e, after);
      if st == Failed { return false, got; }
      if st == Finished {
        ItemsEnd(ll, dl, got, out, was, before, z.Rest(), z.zout);
        return true, got;
      }
      ItemsMore(ll, dl, got, out, was, before, sofar, it, z.Rest(), z.zout);
      got := got + [it];
      if holds { left := left[1..]; }
    }
  }

  /** The block goes on with these items, which end in the output `final`. */
  ghost predicate BlockAhead(items: seq<Item>, rest: seq<bool>, out: seq<byte>, ll: Lengths, dl: Lengths, more: seq<bool>,
                             final: seq<byte>) {
    HuffmanBlock(items, rest, out, ll, dl, more) && Play(items, out) == final
  }

  lemma AheadStart(items: seq<Item>, rest: seq<bool>, out: seq<byte>, ll: Lengths, dl: Lengths, more: seq<bool>)
    requires HuffmanBlock(items, rest, out, ll, dl, more)
    ensures Playable(items, out) && Played(items, out) == Play(items, out)
    ensures BlockAhead(items, rest, out, ll, dl, more, Played(items, out))
  {
  }

  lemma ItemsStart(ll: Lengths, dl: Lengths, out: seq<byte>, was: seq<bool>)
    ensures TookItems(ll, dl, [], out, was, was, out)
  {
    TookNothing(was);
  }

  lemma AheadEnd(rest: seq<bool>, out: seq<byte>, ll: Lengths, dl: Lengths, more: seq<bool>, final: seq<byte>)
    requires BlockAhead([], rest, out, ll, dl, more, final)
    ensures Spelled(TheEnd, rest, ll, dl, more) && out == final
  {
    BlockEnd(rest, out, ll, dl, more);
  }

  lemma AheadStep(items: seq<Item>, rest: seq<bool>, out: seq<byte>, ll: Lengths, dl: Lengths, more: seq<bool>,
                  final: seq<byte>)
    requires BlockAhead(items, rest, out, ll, dl, more, final) && items != []
    ensures SpellsAll(ll, dl, items[1..]) && Used(ll, END_OF_BLOCK)
    ensures var after := ItemsBits(ll, dl, items[1..]) + (CodeBits(ll, END_OF_BLOCK) + more);
            Spelled(AnItem(items[0]), rest, ll, dl, after)
            && Applicable(items[0], out) && |Apply(items[0], out)| <= |final|
            && BlockAhead(items[1..], after, Apply(items[0], out), ll, dl, more, final)
  {
    BlockStep(items, rest, out, ll, dl, more);
  }

  /** The items `got` have been read and played. */
  ghost predicate TookItems(ll: Lengths, dl: Lengths, got: seq<Item>, out: seq<byte>, was: seq<bool>,
                            now: seq<bool>, played: seq<byte>) {
    && SpellsAll(ll, dl, got) && Playable(got, out) && played == Play(got, out)
    && Took(was, ItemsBits(ll, dl, got), now)
  }

  /** A coded block has been read, with its end code. */
  ghost predicate TookCoded(ll: Lengths, dl: Lengths, got: seq<Item>, out: seq<byte>, was: seq<bool>, now: seq<bool>) {
    CodedOk(ll, dl, got, out) && Took(was, CodedBits(ll, dl, got), now)
  }

  lemma ItemsMore(ll: Lengths, dl: Lengths, got: seq<Item>, out: seq<byte>, was: seq<bool>, before: seq<bool>,
                  sofar: seq<byte>, it: Item, now: seq<bool>, played: seq<byte>)
    requires TookItems(ll, dl, got, out, was, before, sofar)
    requires Spells(ll, dl, it) && Took(before, ItemBits(ll, dl, it), now)
    requires Applicable(it, sofar) && played == Apply(it, sofar)
    ensures TookItems(ll, dl, got + [it], out, was, now, played)
  {
    PlayAppend(got, it, out);
    BitsAppend(ll, dl, got, it);
    TookThen(was, ItemsBits(ll, dl, got), before, ItemBits(ll, dl, it), now);
  }

  lemma ItemsEnd(ll: Lengths, dl: Lengths, got: seq<Item>, out: seq<byte>, was: seq<bool>, before: seq<bool>,
                 now: seq<bool>, played: seq<byte>)
    requires TookItems(ll, dl, got, out, was, before, played)
    requires Used(ll, END_OF_BLOCK) && Took(before, CodeBits(ll, END_OF_BLOCK), now)
    ensures TookCoded(ll, dl, got, out, was, now) && played == Play(got, out)
  {
    TookThen(was, ItemsBits(ll, dl, got), before, CodeBits(ll, END_OF_BLOCK), now);
    hide Took;
  }

  ghost predicate HuffmanBlock(items: seq<Item>, rest: seq<bool>, out: seq<byte>, ll: Lengths, dl: Lengths, more: seq<bool>) {
    && |more| >= 32 && Used(ll, END_OF_BLOCK) && SpellsAll(ll, dl, items) && Playable(items, out)
    && rest == ItemsBits(ll, dl, items) + (CodeBits(ll, END_OF_BLOCK) + more)
  }

  lemma BlockEnd(rest: seq<bool>, out: seq<byte>, ll: Lengths, dl: Lengths, more: seq<bool>)
    requires HuffmanBlock([], rest, out, ll, dl, more)
    ensures Spelled(TheEnd, rest, ll, dl, more)
  {
    assert ItemsBits(ll, dl, []) == [];
  }

  lemma BlockStep(items: seq<Item>, rest: seq<bool>, out: seq<byte>, ll: Lengths, dl: Lengths, more: seq<bool>)
    requires HuffmanBlock(items, rest, out, ll, dl, more) && items != []
    ensures var after := ItemsBits(ll, dl, items[1..]) + (CodeBits(ll, END_OF_BLOCK) + more);
            Spelled(AnItem(items[0]), rest, ll, dl, after)
            && Applicable(items[0], out) && |Apply(items[0], out)| <= |Play(items, out)|
            && HuffmanBlock(items[1..], after, Apply(items[0], out), ll, dl, more)
            && Play(items[1..], Apply(items[0], out)) == Play(items, out)
  {
    Assoc(ItemBits(ll, dl, items[0]), ItemsBits(ll, dl, items[1..]), CodeBits(ll, END_OF_BLOCK) + more);
  }
}
