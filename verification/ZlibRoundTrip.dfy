/** Writer and reader together. */
module ZlibRoundTrip {
  import opened Bits
  import opened ZlibBits
  import opened Deflate
  import opened Inflate
  import opened ZlibReader
  import opened ZlibWriter

  /** Inflating the compressor's output gives back the input, for every input and quality,
      exactly when the input is not empty: the compressor falls back to stored blocks for
      the empty input and then writes none, which the reader refuses. */
  method RoundTrip(data: seq<byte>, quality: int, guess: nat) returns (ok: bool, out: seq<byte>, size: nat)
    requires |data| < 0x8000_0000 && 1 <= guess <= UINT_MAX
    ensures ok <==> data != []
    ensures ok ==> out == data
    ensures size <= |data| + 2 + StoredBlocks(|data|) * 5 + 4
  {
    var packed;
    ghost var pieces, more;
    packed, pieces, more := Compress(data, quality);
    size := |packed|;
    assert packed[0] == 0x78 && packed[1] == 0x5e;
    assert HeaderOk(packed);
    assert Body(packed, true) == packed[2..];
    RoomBounds(guess, true);
    ghost var got, left;
    ok, out, got, left := DoZlib(packed, guess, true, true, data != [], pieces, data, more);
  }
}
