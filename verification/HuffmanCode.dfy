/** Canonical Huffman codes as RFC 1951 section 3.2.2 defines them from a list of
    code lengths, and the facts about them that a table-driven decoder relies on. */
module HuffmanCode {
  import opened Bits

  /** Code lengths of the symbols 0, 1, 2, ...; length 0 means "unused". */
  type Lengths = l: seq<nat> | forall i :: 0 <= i < |l| ==> l[i] <= 15 witness []

  /** How many of the first `n` symbols have length `s`. */
  function Count(l: Lengths, s: nat, n: nat): (c: nat)
    requires n <= |l|
    ensures c <= n
  {
    if n == 0 then 0 else Count(l, s, n - 1) + (if l[n - 1] == s then 1 else 0)
  }

  /** The smallest code of length `s`. */
  function FirstCode(l: Lengths, s: nat): nat
    requires 1 <= s <= 16
  {
    if s == 1 then 0 else 2 * (FirstCode(l, s - 1) + Count(l, s - 1, |l|))
  }

  /** How many of the first `n` symbols have a length between 1 and `s - 1`. */
  function Shorter(l: Lengths, s: nat, n: nat): nat
    requires 1 <= s <= 16 && n <= |l|
  {
    if s == 1 then 0 else Shorter(l, s - 1, n) + Count(l, s - 1, n)
  }

  predicate Used(l: Lengths, i: nat) {
    i < |l| && l[i] > 0
  }

  /** The code of symbol `i`, read most significant bit first. */
  function CodeOf(l: Lengths, i: nat): nat
    requires Used(l, i)
  {
    FirstCode(l, l[i]) + Count(l, l[i], i)
  }

  /** The position of symbol `i` when the symbols are sorted by code. */
  function Slot(l: Lengths, i: nat): nat
    requires Used(l, i)
  {
    Shorter(l, l[i], |l|) + Count(l, l[i], i)
  }

  /** No length has more codes than it has room for. */
  predicate Fits(l: Lengths, s: nat)
    requires 1 <= s <= 15
  {
    Count(l, s, |l|) > 0 ==> FirstCode(l, s) + Count(l, s, |l|) <= Pow2(s)
  }

  predicate Acceptable(l: Lengths) {
    forall s :: 1 <= s <= 15 ==> Fits(l, s)
  }

  /** The bits of symbol `i` in the order they travel in the stream. */
  function CodeBits(l: Lengths, i: nat): (b: seq<bool>)
    requires Used(l, i)
    ensures |b| == l[i]
  {
    BitsOf(Reverse(CodeOf(l, i), l[i]), l[i])
  }

  /** The bit buffer `w`, next bit lowest, starts with the code of symbol `i`. */
  predicate Matches(l: Lengths, w: nat, i: nat) {
    Used(l, i) && Reverse(w, l[i]) == CodeOf(l, i)
  }

  /** One past the last 16-bit number that starts with a code of length at most `s`. */
  function End(l: Lengths, s: nat): nat
    requires s <= 15
  {
    if s == 0 then 0 else Shl(FirstCode(l, s) + Count(l, s, |l|), 16 - s)
  }

  // ---------------------------------------------------------------- the code space

  lemma {:induction false} CountMono(l: Lengths, s: nat, m: nat, n: nat)
    requires m <= n <= |l|
    ensures Count(l, s, m) <= Count(l, s, n)
  {
    if m < n { CountMono(l, s, m, n - 1); }
  }

  lemma CountStrict(l: Lengths, i: nat, n: nat)
    requires i < n <= |l|
    ensures Count(l, l[i], i) < Count(l, l[i], n)
  {
    CountMono(l, l[i], i + 1, n);
  }

  /** Symbols of one length get consecutive codes in symbol order. */
  lemma {:induction false} CountInjective(l: Lengths, i: nat, j: nat)
    requires i < |l| && j < |l| && l[i] == l[j]
    requires Count(l, l[i], i) == Count(l, l[j], j)
    ensures i == j
  {
    if i < j { CountStrict(l, i, j); } else if j < i { CountStrict(l, j, i); }
  }

  /** The symbol holding the c-th code of length `s`. */
  lemma {:induction false} NthOf(l: Lengths, s: nat, c: nat, n: nat) returns (i: nat)
    requires n <= |l| && c < Count(l, s, n)
    ensures i < n && l[i] == s && Count(l, s, i) == c
  {
    if l[n - 1] == s && Count(l, s, n - 1) == c {
      i := n - 1;
    } else {
      i := NthOf(l, s, c, n - 1);
    }
  }

  /** The codes of length `s` start where those of length `s - 1` end. */
  lemma EndStep(l: Lengths, s: nat)
    requires 1 <= s <= 15
    ensures Shl(FirstCode(l, s), 16 - s) == End(l, s - 1)
    ensures End(l, s - 1) <= End(l, s)
  {
    ShlMono(FirstCode(l, s), FirstCode(l, s) + Count(l, s, |l|), 16 - s);
    if s == 1 {
      ShlZero(15);
    } else {
      var x := FirstCode(l, s - 1) + Count(l, s - 1, |l|);
      ShlAgain(x, 1, 16 - s);
      assert Shl(x, 1) == 2 * Shl(x, 0);
    }
  }

  lemma {:induction false} EndMono(l: Lengths, s: nat, t: nat)
    requires s <= t <= 15
    ensures End(l, s) <= End(l, t)
  {
    if s < t {
      EndMono(l, s, t - 1);
      EndStep(l, t);
    }
  }

  /** A buffer matches a symbol of length `s` only inside that length's interval. */
  lemma MatchInterval(l: Lengths, w: nat, i: nat)
    requires Matches(l, w, i)
    ensures End(l, l[i] - 1) <= Reverse(w, 16) < End(l, l[i])
  {
    var s, k := l[i], Reverse(w, 16);
    ReverseShr(w, s, 16 - s);
    EndStep(l, s);
    CountStrict(l, i, |l|);
    ShrLess(k, FirstCode(l, s), 16 - s);
    ShrLess(k, FirstCode(l, s) + Count(l, s, |l|), 16 - s);
  }

  /** Inside the interval of length `s` there is a symbol of that length, found by subtraction. */
  lemma IntervalMatch(l: Lengths, w: nat, s: nat) returns (i: nat)
    requires 1 <= s <= 15
    requires End(l, s - 1) <= Reverse(w, 16) < End(l, s)
    ensures Matches(l, w, i) && l[i] == s
    ensures Shr(Reverse(w, 16), 16 - s) == FirstCode(l, s) + Count(l, s, i)
  {
    var k := Reverse(w, 16);
    ReverseShr(w, s, 16 - s);
    EndStep(l, s);
    ShrLess(k, FirstCode(l, s), 16 - s);
    ShrLess(k, FirstCode(l, s) + Count(l, s, |l|), 16 - s);
    i := NthOf(l, s, Reverse(w, s) - FirstCode(l, s), |l|);
  }

  /** Below the end of length `s` some symbol of length at most `s` matches. */
  lemma {:induction false} BelowEndMatches(l: Lengths, w: nat, s: nat) returns (i: nat)
    requires s <= 15 && Reverse(w, 16) < End(l, s)
    ensures Matches(l, w, i) && l[i] <= s
  {
    if Reverse(w, 16) < End(l, s - 1) {
      i := BelowEndMatches(l, w, s - 1);
    } else {
      i := IntervalMatch(l, w, s);
    }
  }

  /** At most one symbol matches: the code is prefix free. */
  lemma MatchUnique(l: Lengths, w: nat, i: nat, j: nat)
    requires Matches(l, w, i) && Matches(l, w, j)
    ensures i == j
  {
    MatchInterval(l, w, i);
    MatchInterval(l, w, j);
    if l[i] < l[j] {
      EndMono(l, l[i], l[j] - 1);
    } else if l[j] < l[i] {
      EndMono(l, l[j], l[i] - 1);
    } else {
      CountInjective(l, i, j);
    }
  }

  lemma {:induction false} CodeFits(l: Lengths, i: nat)
    requires Used(l, i) && Acceptable(l)
    ensures CodeOf(l, i) < Pow2(l[i])
  {
    CountStrict(l, i, |l|);
    assert Fits(l, l[i]);
  }

  /** A buffer whose low bits are the code bits of `i` matches `i`. */
  lemma CodeBitsMatch(l: Lengths, w: nat, i: nat)
    requires Used(l, i) && Acceptable(l)
    requires BitsOf(w, l[i]) == CodeBits(l, i)
    ensures Matches(l, w, i)
  {
    MatchIffLow(l, w, i);
    BitsInjective(w, Reverse(CodeOf(l, i), l[i]), l[i]);
    LowSmall(Reverse(CodeOf(l, i), l[i]), l[i]);
  }

  lemma MatchCodeBits(l: Lengths, w: nat, i: nat)
    requires Matches(l, w, i) && Acceptable(l)
    ensures BitsOf(w, l[i]) == CodeBits(l, i)
  {
    MatchIffLow(l, w, i);
    BitsOfLow(w, l[i]);
  }

  /** A buffer matches symbol `i` exactly when its low bits are the reversed code. */
  lemma MatchIffLow(l: Lengths, w: nat, i: nat)
    requires Used(l, i) && Acceptable(l)
    ensures Matches(l, w, i) <==> Low(w, l[i]) == Reverse(CodeOf(l, i), l[i])
  {
    var s, c := l[i], CodeOf(l, i);
    CodeFits(l, i);
    ReverseTwice(w, s);
    ReverseTwice(c, s);
    LowSmall(c, s);
    ReverseOfLow(w, s, s);
  }

  /** No code word starts another: a stream begins with at most one. */
  lemma PrefixFree(l: Lengths, stream: seq<bool>, i: nat, j: nat)
    requires Acceptable(l) && Used(l, i) && Used(l, j)
    requires CodeBits(l, i) <= stream && CodeBits(l, j) <= stream
    ensures i == j
  {
    var w := ValueOf(stream);
    BitsOfValue(stream);
    BitsSplit(w, l[i], |stream| - l[i]);
    BitsSplit(w, l[j], |stream| - l[j]);
    CodeBitsMatch(l, w, i);
    CodeBitsMatch(l, w, j);
    MatchUnique(l, w, i, j);
  }

  // ---------------------------------------------------------------- table slots

  lemma {:induction false} ShorterStep(l: Lengths, s: nat, n: nat)
    requires 1 <= s <= 16 && 0 < n <= |l|
    ensures Shorter(l, s, n) == Shorter(l, s, n - 1) + (if 1 <= l[n - 1] < s then 1 else 0)
  {
    if s > 1 { ShorterStep(l, s - 1, n); }
  }

  lemma {:induction false} ShorterBound(l: Lengths, s: nat, n: nat)
    requires 1 <= s <= 16 && n <= |l|
    ensures Shorter(l, s, n) <= n
  {
    if n > 0 {
      ShorterStep(l, s, n);
      ShorterBound(l, s, n - 1);
    } else if s > 1 {
      ShorterBound(l, s - 1, n);
    }
  }

  lemma {:induction false} ShorterMono(l: Lengths, s: nat, t: nat)
    requires 1 <= s <= t <= 16
    ensures Shorter(l, s, |l|) <= Shorter(l, t, |l|)
  {
    if s < t { ShorterMono(l, s, t - 1); }
  }

  lemma SlotBound(l: Lengths, i: nat)
    requires Used(l, i)
    ensures Shorter(l, l[i], |l|) <= Slot(l, i) < Shorter(l, l[i] + 1, |l|) <= |l|
  {
    CountStrict(l, i, |l|);
    ShorterBound(l, l[i] + 1, |l|);
  }

  /** Different symbols sit in different slots. */
  lemma SlotInjective(l: Lengths, i: nat, j: nat)
    requires Used(l, i) && Used(l, j) && Slot(l, i) == Slot(l, j)
    ensures i == j
  {
    SlotBound(l, i);
    SlotBound(l, j);
    if l[i] < l[j] {
      ShorterMono(l, l[i] + 1, l[j]);
    } else if l[j] < l[i] {
      ShorterMono(l, l[j] + 1, l[i]);
    } else {
      CountInjective(l, i, j);
    }
  }
}
