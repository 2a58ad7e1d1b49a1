/** `stbi__compute_huffman_codes`: the header of a block with its own code. */
module DynamicCodes {
  import opened Bits
  import opened HuffmanCode
  import opened HuffmanTable
  import opened ZlibBits
  import opened Deflate
  import opened Inflate

  /** The `given` lengths, three bits each, stored in LENGTH_ORDER. */
  method ReadGiven(z: ZBuf, hclen: nat, ghost given: seq<byte>, ghost more: seq<bool>)
    returns (sizes: seq<nat>, ghost got: seq<byte>)
    requires z.Valid() && hclen <= 19
    modifies z`pos, z`numBits, z`codeBuffer
    ensures z.Valid() && z.Ahead() <= old(z.Ahead()) && |sizes| == 19 && IsLengths(sizes)
    ensures GivenSpelled(given, old(z.Rest()), more) && |given| == hclen ==>
              z.Rest() == more && sizes == PlaceLengths(given)
    ensures |got| == hclen && TookGiven(got, sizes, old(z.Rest()), z.Rest()) && Placed(got, sizes)
  {
    hide TookGiven, Took, ZBuf.Rest, ZBuf.Ahead, BitsOf, Placed, PlaceLengths, Pow2;
    ghost var was := z.Rest();
    got := [];
    GivenStart(was);
    ghost var holds := GivenSpelled(given, z.Rest(), more) && |given| == hclen;
    sizes := Fill(0, 19);
    var i := 0;
    if holds { NoneYet(given); }
    while i < hclen
      invariant i <= hclen && z.Valid() && z.Ahead() <= old(z.Ahead()) && |sizes| == 19 && IsLengths(sizes)
      invariant holds ==> GivenSpelled(given[i..], z.Rest(), more) && sizes == PlaceLengths(given[..i])
      invariant |got| == i && TookGiven(got, sizes, was, z.Rest())
    {
      ghost var before := z.Rest();
      ghost var want, after := 0, more;
      if holds {
        want := given[i];
        after := FieldBits(given[i + 1..], 3) + more;
        GivenNext(given, i, z.Rest(), more);
      }
      PowThree();
      var s := TakeField(z, 3, want, after);
      OrderInRange(i);
      GivenMore(got, sizes, was, before, s, z.Rest());
      sizes := sizes[LENGTH_ORDER[i] := s];
      got := got + [s];
      i := i + 1;
    }
    assert holds ==> given[..i] == given && given[i..] == [] && FieldBits(given[i..], 3) + more == more;
    GivenPlaced(got, sizes, was, z.Rest());
  }

  lemma PowThree()
    ensures Pow2(3) == 8
  {
  }

  /** The next field of those that are spelled, and what it does to the lengths. */
  lemma GivenNext(given: seq<byte>, i: nat, rest: seq<bool>, more: seq<bool>)
    requires i < |given| <= 19 && GivenSpelled(given[i..], rest, more) && SmallFields(given)
    ensures rest == BitsOf(given[i], 3) + (FieldBits(given[i + 1..], 3) + more) && given[i] < 8
    ensures GivenSpelled(given[i + 1..], FieldBits(given[i + 1..], 3) + more, more)
    ensures LENGTH_ORDER[i] < 19 && PlaceLengths(given[..i + 1]) == PlaceLengths(given[..i])[LENGTH_ORDER[i] := given[i]]
  {
    hide BitsOf;
    OrderInRange(i);
    assert given[i..][1..] == given[i + 1..];
    Assoc(BitsOf(given[i], 3), FieldBits(given[i + 1..], 3), more);
    assert given[..i + 1][..i] == given[..i];
  }

  lemma NoneYet(given: seq<byte>)
    ensures PlaceLengths(given[..0]) == Fill(0, 19) && given[0..] == given
  {
  }

  /** The lengths `got` have been read and put in their places. */
  ghost predicate TookGiven(got: seq<byte>, sizes: seq<nat>, was: seq<bool>, now: seq<bool>) {
    |got| <= 19 && SmallFields(got) && sizes == PlaceLengths(got) && Took(was, FieldBits(got, 3), now)
  }

  lemma GivenPlaced(got: seq<byte>, sizes: seq<nat>, was: seq<bool>, now: seq<bool>)
    requires TookGiven(got, sizes, was, now)
    ensures Placed(got, sizes)
  {
    LengthsPlaced(got);
  }

  lemma GivenStart(was: seq<bool>)
    ensures TookGiven([], Fill(0, 19), was, was)
  {
    TookNothing(was);
  }

  lemma GivenMore(got: seq<byte>, sizes: seq<nat>, was: seq<bool>, before: seq<bool>, s: nat, now: seq<bool>)
    requires TookGiven(got, sizes, was, before) && |got| < 19 && s < 8 && Took(before, BitsOf(s, 3), now)
    ensures LENGTH_ORDER[|got|] < |sizes|
    ensures TookGiven(got + [s], sizes[LENGTH_ORDER[|got|] := s], was, now)
  {
    hide Took;
    OrderInRange(|got|);
    FieldsAppend(got, [s], 3);
    FieldsOne(s, 3);
    assert (got + [s])[..|got|] == got;
    TookThen(was, FieldBits(got, 3), before, BitsOf(s, 3), now);
  }

  lemma OrderInRange(i: nat)
    requires i < 19
    ensures LENGTH_ORDER[i] < 19
  {
  }

  ghost predicate GivenSpelled(given: seq<byte>, rest: seq<bool>, more: seq<bool>) {
    SmallFields(given) && |more| >= 32 && rest == FieldBits(given, 3) + more
  }

  ghost predicate LengthSpelled(cl: Lengths, it: LengthItem, sofar: seq<nat>, rest: seq<bool>, more: seq<bool>) {
    && LengthFits(cl, it, sofar) && |more| >= 32
    && rest == LengthItemBits(cl, it, sofar) + more
  }

  /** One round of the loop: a length, or a run of lengths. */
  method ReadLength(z: ZBuf, t: ZHuffman, ghost cl: Lengths, lens: seq<nat>, total: nat,
                    ghost it: LengthItem, ghost more: seq<bool>)
    returns (ok: bool, now: seq<nat>, ghost got: LengthItem)
    requires z.Valid() && t.Describes(cl) && IsLengths(lens) && |lens| < total
    modifies z`pos, z`numBits, z`codeBuffer, z`hitEofOnce
    ensures z.Valid() && z.Ahead() <= old(z.Ahead())
    ensures ok ==> IsLengths(now) && |lens| < |now| <= total
    ensures LengthSpelled(cl, it, lens, old(z.Rest()), more) && |MoreLengths(it, lens)| <= total ==>
              ok && now == MoreLengths(it, lens) && z.Rest() == more && z.hitEofOnce == old(z.hitEofOnce)
    ensures ok ==> TookLength(cl, got, lens, old(z.Rest()), now, z.Rest())
  {
    hide Took, TookLength, TookRun, RunSpelled, ZHuffman.Describes, ZBuf.Rest, ZBuf.Ahead, CodeBits, BitsOf, Used;
    ghost var sym, extra, after, was := 0, 0, more, z.Rest();
    if LengthSpelled(cl, it, lens, z.Rest(), more) {
      sym, extra := LengthSym(it), LengthExtra(it);
      after := BitsOf(extra, LengthWidth(it)) + more;
      Assoc(CodeBits(cl, sym), BitsOf(extra, LengthWidth(it)), more);
    }
    ok, now, got := false, lens, Given(0);
    var c := TakeCode(z, t, cl, sym, after);
    ghost var then1 := z.Rest();
    if c < 0 || c >= 19 { return; }
    if LengthSpelled(cl, it, lens, was, more) && c == LengthSym(it) { SpelledRun(cl, it, lens, then1, more); }
    if c < 16 {
      ok, now, got := true, lens + [c], Given(c);
      GivenTaken(cl, c, lens, was, then1);
    } else {
      ok, now, got := ReadRun(z, c, lens, total, it, more);
      if ok { RunTaken(cl, c, got, lens, was, then1, now, z.Rest()); }
    }
  }

  /** The item `got` has been read behind the lengths `lens`, which are now `now`. */
  ghost predicate TookLength(cl: Lengths, got: LengthItem, lens: seq<nat>, was: seq<bool>, now: seq<nat>, rest: seq<bool>) {
    LengthFits(cl, got, lens) && now == MoreLengths(got, lens) && Took(was, LengthItemBits(cl, got, lens), rest)
  }

  /** The same, once its code `c` is read. */
  ghost predicate TookRun(c: nat, got: LengthItem, lens: seq<nat>, was: seq<bool>, now: seq<nat>, rest: seq<bool>) {
    && LengthSym(got) == c && !got.Given? && (got.Repeat? ==> lens != []) && got.extra < Pow2(LengthWidth(got))
    && now == MoreLengths(got, lens) && Took(was, BitsOf(got.extra, LengthWidth(got)), rest)
  }

  lemma GivenTaken(cl: Lengths, c: nat, lens: seq<nat>, was: seq<bool>, rest: seq<bool>)
    requires c < 16 && Used(cl, c) && Took(was, CodeBits(cl, c), rest)
    ensures TookLength(cl, Given(c), lens, was, lens + [c], rest)
  {
    assert CodeBits(cl, c) + BitsOf(0, 0) == CodeBits(cl, c);
    assert Pow2(0) == 1;
  }

  lemma RunTaken(cl: Lengths, c: nat, got: LengthItem, lens: seq<nat>, was: seq<bool>, then1: seq<bool>,
                 now: seq<nat>, rest: seq<bool>)
    requires Used(cl, c) && Took(was, CodeBits(cl, c), then1) && TookRun(c, got, lens, then1, now, rest)
    ensures TookLength(cl, got, lens, was, now, rest)
  {
    hide Took;
    TookThen(was, CodeBits(cl, c), then1, BitsOf(got.extra, LengthWidth(got)), rest);
  }

  lemma SpelledRun(cl: Lengths, it: LengthItem, lens: seq<nat>, rest: seq<bool>, more: seq<bool>)
    requires LengthFits(cl, it, lens) && |more| >= 32
    requires rest == BitsOf(LengthExtra(it), LengthWidth(it)) + more
    ensures it.Given? ==> rest == more && LengthSym(it) < 16
    ensures !it.Given? ==> RunSpelled(LengthSym(it), it, lens, rest, more)
  {
    if it.Given? {
      assert BitsOf(LengthExtra(it), 0) + more == more;
    }
  }

  ghost predicate RunSpelled(c: nat, it: LengthItem, lens: seq<nat>, rest: seq<bool>, more: seq<bool>) {
    && LengthSym(it) == c && !it.Given? && (it.Repeat? ==> lens != [])
    && LengthExtra(it) < Pow2(LengthWidth(it)) && |more| >= 32
    && rest == BitsOf(LengthExtra(it), LengthWidth(it)) + more
  }

  /** The widths and bases of the three run codes. */
  method ReadRun(z: ZBuf, c: nat, lens: seq<nat>, total: nat, ghost it: LengthItem, ghost more: seq<bool>)
    returns (ok: bool, now: seq<nat>, ghost got: LengthItem)
    requires z.Valid() && 16 <= c <= 18 && IsLengths(lens)
    modifies z`pos, z`numBits, z`codeBuffer
    ensures z.Valid() && z.Ahead() <= old(z.Ahead())
    ensures ok ==> IsLengths(now) && |lens| < |now| <= total
    ensures RunSpelled(c, it, lens, old(z.Rest()), more) && |MoreLengths(it, lens)| <= total ==>
              ok && now == MoreLengths(it, lens) && z.Rest() == more
    ensures ok ==> TookRun(c, got, lens, old(z.Rest()), now, z.Rest())
  {
    hide Took, TookRun, RunSpelled, MoreLengths, IsLengths, Fill, ZBuf.Rest, ZBuf.Ahead, BitsOf, Pow2;
    var n, fill := 0, 0;
    ghost var extra, was := LengthExtra(it), z.Rest();
    if RunSpelled(c, it, lens, was, more) { RunField(c, it, lens, was, more); }
    ok, now, got := false, lens, Given(0);
    if c == 16 {
      n := TakeField(z, 2, extra, more);
      got := Repeat(n);
      n := n + 3;
      if lens == [] { return; }
      fill := lens[|lens| - 1];
    } else if c == 17 {
      n := TakeField(z, 3, extra, more);
      got := ZerosShort(n);
      n := n + 3;
    } else {
      n := TakeField(z, 7, extra, more);
      got := ZerosLong(n);
      n := n + 11;
    }
    RunMakes(c, got, lens, fill, n, was, z.Rest());
    if RunSpelled(c, it, lens, was, more) { RunIs(c, it, got, lens, was, more); }
    if total - |lens| < n { return; }
    ok, now := true, lens + Fill(fill, n);
  }

  /** What a well-spelled run has in its field. */
  lemma RunField(c: nat, it: LengthItem, lens: seq<nat>, rest: seq<bool>, more: seq<bool>)
    requires RunSpelled(c, it, lens, rest, more)
    ensures var width := if c == 16 then 2 else if c == 17 then 3 else 7;
            rest == BitsOf(LengthExtra(it), width) + more && LengthExtra(it) < Pow2(width) && |more| >= 32
    ensures c == 16 ==> lens != []
  {
  }

  /** The run just read: that many lengths, all the same. */
  lemma RunMakes(c: nat, got: LengthItem, lens: seq<nat>, fill: nat, n: nat, was: seq<bool>, rest: seq<bool>)
    requires !got.Given? && LengthSym(got) == c && got.extra < Pow2(LengthWidth(got)) && IsLengths(lens)
    requires Took(was, BitsOf(got.extra, LengthWidth(got)), rest)
    requires if got.Repeat? then lens != [] && fill == lens[|lens| - 1] else fill == 0
    requires n == got.extra + (if got.ZerosLong? then 11 else 3)
    ensures MoreLengths(got, lens) == lens + Fill(fill, n) && |lens + Fill(fill, n)| == |lens| + n
    ensures TookRun(c, got, lens, was, lens + Fill(fill, n), rest) && IsLengths(lens + Fill(fill, n))
  {
    hide Took;
  }

  lemma RunIs(c: nat, it: LengthItem, got: LengthItem, lens: seq<nat>, rest: seq<bool>, more: seq<bool>)
    requires RunSpelled(c, it, lens, rest, more) && !got.Given? && LengthSym(got) == c && got.extra == LengthExtra(it)
    ensures got == it
  {
  }

  ghost predicate LengthsSpelled(cl: Lengths, items: seq<LengthItem>, sofar: seq<nat>, total: nat,
                                 rest: seq<bool>, more: seq<bool>) {
    && LengthsFit(cl, items, sofar) && |AllLengths(cl, items, sofar)| == total && |more| >= 32
    && rest == LengthItemsBits(cl, items, sofar) + more
  }

  lemma LengthsStep(cl: Lengths, items: seq<LengthItem>, sofar: seq<nat>, total: nat, rest: seq<bool>, more: seq<bool>)
    requires LengthsSpelled(cl, items, sofar, total, rest, more) && |sofar| < total
    ensures items != [] && (items[0].Repeat? ==> sofar != [])
    ensures var now := MoreLengths(items[0], sofar);
            var after := LengthItemsBits(cl, items[1..], now) + more;
            |now| <= total && LengthSpelled(cl, items[0], sofar, rest, after)
            && LengthsSpelled(cl, items[1..], now, total, after, more)
            && Made(cl, items[1..], now) == Made(cl, items, sofar) && LengthsFit(cl, items[1..], now)
  {
    var now := MoreLengths(items[0], sofar);
    Assoc(LengthItemBits(cl, items[0], sofar), LengthItemsBits(cl, items[1..], now), more);
  }

  lemma LengthsDone(cl: Lengths, items: seq<LengthItem>, sofar: seq<nat>, total: nat, rest: seq<bool>, more: seq<bool>)
    requires LengthsSpelled(cl, items, sofar, total, rest, more) && |sofar| == total
    ensures rest == more && Made(cl, items, sofar) == sofar
  {
    assert [] + more == more;
    if items != [] { assert false; }
  }

  /** The loop that fills `lencodes`. */
  method ReadLengths(z: ZBuf, t: ZHuffman, ghost cl: Lengths, total: nat,
                     ghost items: seq<LengthItem>, ghost more: seq<bool>)
    returns (ok: bool, lens: seq<nat>, ghost got: seq<LengthItem>)
    requires z.Valid() && t.Describes(cl)
    modifies z`pos, z`numBits, z`codeBuffer, z`hitEofOnce
    ensures z.Valid() && z.Ahead() <= old(z.Ahead())
    ensures ok ==> IsLengths(lens) && |lens| == total
    ensures LengthsSpelled(cl, items, [], total, old(z.Rest()), more) ==>
              ok && lens == AllLengths(cl, items, []) && z.Rest() == more && z.hitEofOnce == old(z.hitEofOnce)
    ensures ok ==> TookLengths(cl, got, lens, old(z.Rest()), z.Rest())
  {
    hide Took, TookLengths, TookLength, LengthSpelled, LengthsSpelled, ZHuffman.Describes, ZBuf.Rest, ZBuf.Ahead,
         LengthItemsBits, Made, AllLengths, LengthsFit, LengthFits, MoreLengths, CodeBits;
    ghost var holds := LengthsSpelled(cl, items, [], total, z.Rest(), more);
    ghost var left, final := items, Made(cl, items, []);
    ghost var hit, was := z.hitEofOnce, z.Rest();
    lens, got := [], [];
    if holds { LengthsStart(cl, items, [], total, was, more); }
    LengthsNone(cl, was);
    while |lens| < total
      invariant z.Valid() && z.Ahead() <= old(z.Ahead()) && t.Describes(cl) && IsLengths(lens) && |lens| <= total
      invariant holds ==> LengthsSpelled(cl, left, lens, total, z.Rest(), more) && z.hitEofOnce == hit
      invariant holds ==> Made(cl, left, lens) == final
      invariant TookLengths(cl, got, lens, was, z.Rest())
      decreases total - |lens|
    {
      ghost var it, after, before := Given(0), more, z.Rest();
      if holds {
        LengthsStep(cl, left, lens, total, z.Rest(), more);
        it := left[0];
        after := LengthItemsBits(cl, left[1..], MoreLengths(it, lens)) + more;
        left := left[1..];
      }
      var fine, now;
      ghost var one;
      fine, now, one := ReadLength(z, t, cl, lens, total, it, after);
      if !fine { return false, lens, got; }
      LengthsMore(cl, got, lens, was, before, one, now, z.Rest());
      lens, got := now, got + [one];
    }
    if holds { LengthsDone(cl, left, lens, total, z.Rest(), more); }
    return true, lens, got;
  }

  /** The lengths after all items; items that do not fit make none. */
  function Made(cl: Lengths, items: seq<LengthItem>, sofar: seq<nat>): seq<nat> {
    if LengthsFit(cl, items, sofar) then AllLengths(cl, items, sofar) else []
  }

  /** The items `got` have been read; they make `lens`. */
  ghost predicate TookLengths(cl: Lengths, got: seq<LengthItem>, lens: seq<nat>, was: seq<bool>, rest: seq<bool>) {
    LengthsFit(cl, got, []) && lens == AllLengths(cl, got, []) && Took(was, LengthItemsBits(cl, got, []), rest)
  }

  lemma LengthsNone(cl: Lengths, was: seq<bool>)
    ensures TookLengths(cl, [], [], was, was)
  {
    TookNothing(was);
  }

  lemma LengthsStart(cl: Lengths, items: seq<LengthItem>, sofar: seq<nat>, total: nat, rest: seq<bool>, more: seq<bool>)
    requires LengthsSpelled(cl, items, sofar, total, rest, more)
    ensures LengthsFit(cl, items, sofar) && Made(cl, items, sofar) == AllLengths(cl, items, sofar)
  {
  }

  lemma LengthsMore(cl: Lengths, got: seq<LengthItem>, lens: seq<nat>, was: seq<bool>, before: seq<bool>,
                    one: LengthItem, now: seq<nat>, rest: seq<bool>)
    requires TookLengths(cl, got, lens, was, before) && TookLength(cl, one, lens, before, now, rest)
    ensures TookLengths(cl, got + [one], now, was, rest)
  {
    hide Took;
    ItemsAppend(cl, got, one, []);
    TookThen(was, LengthItemsBits(cl, got, []), before, LengthItemBits(cl, one, lens), rest);
  }

  lemma {:induction false} ItemsAppend(cl: Lengths, items: seq<LengthItem>, it: LengthItem, sofar: seq<nat>)
    requires LengthsFit(cl, items, sofar) && LengthFits(cl, it, AllLengths(cl, items, sofar))
    ensures var all, lens := items + [it], AllLengths(cl, items, sofar);
            && LengthsFit(cl, all, sofar) && AllLengths(cl, all, sofar) == MoreLengths(it, lens)
            && LengthItemsBits(cl, all, sofar) == LengthItemsBits(cl, items, sofar) + LengthItemBits(cl, it, lens)
    decreases |items|
  {
    var all := items + [it];
    if items == [] {
      assert all[0] == it && all[1..] == [];
      assert LengthItemsBits(cl, all, sofar) == LengthItemBits(cl, it, sofar) + [];
    } else {
      var now := MoreLengths(items[0], sofar);
      assert all[0] == items[0] && all[1..] == items[1..] + [it];
      ItemsAppend(cl, items[1..], it, now);
      hide LengthFits, MoreLengths, LengthItemBits;
      Assoc(LengthItemBits(cl, items[0], sofar), LengthItemsBits(cl, items[1..], now),
            LengthItemBits(cl, it, AllLengths(cl, items, sofar)));
    }
  }

  ghost predicate CodesSpelled(c: Codes, rest: seq<bool>, more: seq<bool>) {
    CodesOk(c) && |more| >= 32 && rest == CodesBits(c) + more
  }

  ghost predicate CountsSpelled(hlit: nat, hdist: nat, hclen: nat, rest: seq<bool>, more: seq<bool>) {
    && 257 <= hlit <= 288 && 1 <= hdist <= 32 && 4 <= hclen <= 19 && |more| >= 32
    && rest == CountsBits(hlit, hdist, hclen) + more
  }

  /** The three counts at the front of the header. */
  method ReadCounts(z: ZBuf, ghost a: nat, ghost b: nat, ghost n: nat, ghost more: seq<bool>)
    returns (hlit: nat, hdist: nat, hclen: nat)
    requires z.Valid()
    modifies z`pos, z`numBits, z`codeBuffer
    ensures z.Valid() && z.Ahead() <= old(z.Ahead()) && 257 <= hlit <= 288 && 1 <= hdist <= 32 && 4 <= hclen <= 19
    ensures CountsSpelled(a, b, n, old(z.Rest()), more) ==>
              z.Rest() == more && hlit == a && hdist == b && hclen == n
    ensures Took(old(z.Rest()), CountsBits(hlit, hdist, hclen), z.Rest())
  {
    hide Took, ZBuf.Rest, ZBuf.Ahead, BitsOf;
    ghost var x, y, w := 0, 0, 0;
    if CountsSpelled(a, b, n, z.Rest(), more) {
      x, y, w := a - 257, b - 1, n - 4;
      Assoc(BitsOf(x, 5), BitsOf(y, 5) + BitsOf(w, 4), more);
      Assoc(BitsOf(y, 5), BitsOf(w, 4), more);
    }
    assert Pow2(5) == 32 && Pow2(4) == 16;
    ghost var r0 := z.Rest();
    hlit := TakeField(z, 5, x, BitsOf(y, 5) + (BitsOf(w, 4) + more));
    ghost var r1 := z.Rest();
    hdist := TakeField(z, 5, y, BitsOf(w, 4) + more);
    ghost var r2 := z.Rest();
    hclen := TakeField(z, 4, w, more);
    TookThen(r1, BitsOf(hdist, 5), r2, BitsOf(hclen, 4), z.Rest());
    TookThen(r0, BitsOf(hlit, 5), r1, BitsOf(hdist, 5) + BitsOf(hclen, 4), z.Rest());
    return hlit + 257, hdist + 1, hclen + 4;
  }

  lemma CodesStep(c: Codes, rest: seq<bool>, more: seq<bool>)
    requires CodesSpelled(c, rest, more)
    ensures |c.given| <= 19 && IsLengths(PlaceLengths(c.given)) && LengthsFit(PlaceLengths(c.given), c.items, [])
    ensures var cl: Lengths := PlaceLengths(c.given);
            var after := LengthItemsBits(cl, c.items, []) + more;
            CountsSpelled(c.hlit, c.hdist, |c.given|, rest, FieldBits(c.given, 3) + after)
            && GivenSpelled(c.given, FieldBits(c.given, 3) + after, after)
            && Acceptable(cl) && LengthsSpelled(cl, c.items, [], c.hlit + c.hdist, after, more)
  {
    var s, t := FieldBits(c.given, 3), LengthItemsBits(PlaceLengths(c.given), c.items, []);
    Assoc(CountsBits(c.hlit, c.hdist, |c.given|), s + t, more);
    Assoc(s, t, more);
  }

  method DecodeLengths(z: ZBuf, cl: Lengths, total: nat, ghost items: seq<LengthItem>, ghost more: seq<bool>)
    returns (ok: bool, lens: seq<nat>, ghost got: seq<LengthItem>)
    requires z.Valid() && |cl| == 19
    modifies z`pos, z`numBits, z`codeBuffer, z`hitEofOnce
    ensures z.Valid() && z.Ahead() <= old(z.Ahead())
    ensures ok ==> IsLengths(lens) && |lens| == total
    ensures LengthsSpelled(cl, items, [], total, old(z.Rest()), more) && Acceptable(cl) ==>
              ok && lens == AllLengths(cl, items, []) && z.Rest() == more && z.hitEofOnce == old(z.hitEofOnce)
    ensures ok ==> Acceptable(cl) && TookLengths(cl, got, lens, old(z.Rest()), z.Rest())
  {
    var t := new ZHuffman();
    ok := Build(t, cl);
    lens, got := [], [];
    if ok { ok, lens, got := ReadLengths(z, t, cl, total, items, more); }
  }

  /** The header up to the uncompressed lengths of both alphabets. */
  method ReadBothLengths(z: ZBuf, ghost c: Codes, ghost more: seq<bool>)
    returns (ok: bool, hlit: nat, lens: seq<nat>, ghost got: Codes)
    requires z.Valid()
    modifies z`pos, z`numBits, z`codeBuffer, z`hitEofOnce
    ensures z.Valid() && z.Ahead() <= old(z.Ahead())
    ensures ok ==> 257 <= hlit <= 288 && hlit <= |lens| <= hlit + 32 && IsLengths(lens)
    ensures CodesSpelled(c, old(z.Rest()), more) ==>
              ok && hlit == c.hlit && lens == AllLengths(PlaceLengths(c.given), c.items, []) && z.Rest() == more
              && z.hitEofOnce == old(z.hitEofOnce)
    ensures ok ==> TookHeader(got, hlit, lens, old(z.Rest()), z.Rest())
  {
    hide Took, TookGiven, TookLengths, TookHeader, GivenSpelled, CountsSpelled, LengthsSpelled, CountsBits, FieldBits,
         ZBuf.Rest, ZBuf.Ahead, PlaceLengths, Acceptable, LengthItemsBits, LengthsFit, CodesSpelled, AllLengths;
    ghost var r0 := z.Rest();
    ghost var given, items, after1, after2 := [], [], more, more;
    if CodesSpelled(c, z.Rest(), more) {
      CodesStep(c, z.Rest(), more);
      given, items := c.given, c.items;
      after2 := LengthItemsBits(PlaceLengths(given), items, []) + more;
      after1 := FieldBits(given, 3) + after2;
    }
    var hdist, hclen;
    hlit, hdist, hclen := ReadCounts(z, c.hlit, c.hdist, |c.given|, after1);
    ghost var r1 := z.Rest();
    var sizes;
    ghost var sizesGot, itemsGot;
    sizes, sizesGot := ReadGiven(z, hclen, given, after2);
    ghost var r2 := z.Rest();
    ok, lens, itemsGot := DecodeLengths(z, sizes, hlit + hdist, items, more);
    got := Codes(hlit, hdist, sizesGot, itemsGot);
    if ok { HeaderTaken(got, sizes, lens, r0, r1, r2, z.Rest()); }
  }

  /** The header `got` has been read as far as the lengths of both alphabets. */
  ghost predicate TookHeader(got: Codes, hlit: nat, lens: seq<nat>, was: seq<bool>, rest: seq<bool>) {
    && hlit == got.hlit && 257 <= got.hlit <= 288 && 1 <= got.hdist <= 32 && 4 <= |got.given| <= 19 && SmallFields(got.given)
    && IsLengths(PlaceLengths(got.given)) && Acceptable(PlaceLengths(got.given))
    && LengthsFit(PlaceLengths(got.given), got.items, []) && lens == AllLengths(PlaceLengths(got.given), got.items, [])
    && |lens| == got.hlit + got.hdist && IsLengths(lens)
    && Took(was, CountsBits(got.hlit, got.hdist, |got.given|)
                 + (FieldBits(got.given, 3) + LengthItemsBits(PlaceLengths(got.given), got.items, [])), rest)
  }

  lemma HeaderTaken(got: Codes, sizes: seq<nat>, lens: seq<nat>, r0: seq<bool>, r1: seq<bool>, r2: seq<bool>, r3: seq<bool>)
    requires 257 <= got.hlit <= 288 && 1 <= got.hdist <= 32 && 4 <= |got.given| <= 19
    requires Took(r0, CountsBits(got.hlit, got.hdist, |got.given|), r1) && TookGiven(got.given, sizes, r1, r2)
    requires IsLengths(sizes) && Acceptable(sizes) && TookLengths(sizes, got.items, lens, r2, r3)
    requires |lens| == got.hlit + got.hdist && IsLengths(lens)
    ensures TookHeader(got, got.hlit, lens, r0, r3)
  {
    hide Took;
    var x, y, w := CountsBits(got.hlit, got.hdist, |got.given|), FieldBits(got.given, 3), LengthItemsBits(sizes, got.items, []);
    TookThen(r1, y, r2, w, r3);
    TookThen(r0, x, r1, y + w, r3);
  }

  method BuildBoth(lt: ZHuffman, dt: ZHuffman, ll: Lengths, dl: Lengths) returns (ok: bool)
    requires lt.Shape() && dt.Shape() && lt.Tables() !! dt.Tables() && |ll| <= 288 && |dl| <= 32
    modifies lt.Tables(), dt.Tables()
    ensures ok <==> Acceptable(ll) && Acceptable(dl)
    ensures ok ==> lt.Describes(ll) && dt.Describes(dl)
  {
    ok := Build(lt, ll);
    if ok { ok := Build(dt, dl); }
  }

  /** `stbi__compute_huffman_codes`.  On success the two tables describe some pair of
      codes; on a well-formed header they are the ones it spells. */
  method ReadCodes(z: ZBuf, lt: ZHuffman, dt: ZHuffman, ghost c: Codes, ghost more: seq<bool>)
    returns (ok: bool, ghost ll: Lengths, ghost dl: Lengths, ghost got: Codes)
    requires z.Valid() && lt.Shape() && dt.Shape() && lt.Tables() !! dt.Tables()
    modifies z`pos, z`numBits, z`codeBuffer, z`hitEofOnce, lt.Tables(), dt.Tables()
    ensures z.Valid() && z.Ahead() <= old(z.Ahead())
    ensures ok ==> lt.Describes(ll) && dt.Describes(dl)
    ensures CodesSpelled(c, old(z.Rest()), more) ==>
              ok && ll == LitLengths(c) && dl == DistLengths(c) && z.Rest() == more
              && z.hitEofOnce == old(z.hitEofOnce)
    ensures ok ==> TookCodes(got, ll, dl, old(z.Rest()), z.Rest())
  {
    hide Took, TookHeader, TookCodes, CodesSpelled, AllLengths, PlaceLengths, ZHuffman.Describes, Acceptable, ZBuf.Rest,
         ZBuf.Ahead;
    var hlit, lens;
    ok, hlit, lens, got := ReadBothLengths(z, c, more);
    ghost var rest := z.Rest();
    ll, dl := [], [];
    if CodesSpelled(c, old(z.Rest()), more) { CodesAre(c, old(z.Rest()), more); }
    if ok {
      ll, dl := lens[..hlit], lens[hlit..];
      ok := BuildBoth(lt, dt, lens[..hlit], lens[hlit..]);
      if ok { CodesTaken(got, hlit, lens, old(z.Rest()), rest); }
    }
  }

  lemma CodesAre(c: Codes, rest: seq<bool>, more: seq<bool>)
    requires CodesSpelled(c, rest, more)
    ensures |c.given| <= 19 && IsLengths(PlaceLengths(c.given)) && LengthsFit(PlaceLengths(c.given), c.items, [])
    ensures var all := AllLengths(PlaceLengths(c.given), c.items, []);
            && c.hlit <= |all| && LitLengths(c) == all[..c.hlit] && DistLengths(c) == all[c.hlit..]
            && Acceptable(LitLengths(c)) && Acceptable(DistLengths(c))
  {
  }

  /** The whole header `got` has been read; the two codes are its own. */
  ghost predicate TookCodes(got: Codes, ll: Lengths, dl: Lengths, was: seq<bool>, rest: seq<bool>) {
    CodesOk(got) && ll == LitLengths(got) && dl == DistLengths(got) && Took(was, CodesBits(got), rest)
  }

  lemma CodesTaken(got: Codes, hlit: nat, lens: seq<nat>, was: seq<bool>, rest: seq<bool>)
    requires TookHeader(got, hlit, lens, was, rest) && hlit <= |lens| && |lens| <= hlit + 32 && hlit <= 288
    requires IsLengths(lens[..hlit]) && IsLengths(lens[hlit..])
    requires Acceptable(lens[..hlit]) && Acceptable(lens[hlit..])
    ensures TookCodes(got, lens[..hlit], lens[hlit..], was, rest)
  {
    hide Took;
  }
}
