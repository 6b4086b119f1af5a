/**
 The promise of the compressor to its users, for the two methods together.
 */
module RangeRoundTrip {
  import opened Words
  import opened FrequencyModel
  import opened RangeCodec
  import opened RangeCoders
  import opened RangeCompression
  import opened RangeDecompression
  import opened PoolMirrors

  /** Compresses the buffers and decompresses the result.  Whenever compression succeeds, the buffers'
      bytes come back, whatever coder objects were used before on either side, and two different coders are left
      with pools that mirror each other.  So had they been before, between and after the bytes: `encoded` and
      `decoded` are their pools then, the last ones being those of now. */
  method ThereAndBack(encoder: RangeCoder, decoder: RangeCoder, buffers: seq<seq<byte>>, inLimit: nat,
                      packed: array<byte>, back: array<byte>)
    returns (n: nat, m: nat, ghost encoded: seq<Pool>, ghost decoded: seq<Pool>, ghost p: nat, ghost q: nat)
    requires encoder.symbols.Length == decoder.symbols.Length == POOL && packed != back
    requires forall b :: 0 < b < |buffers| ==> buffers[b] != []
    requires |Flatten(buffers)| <= back.Length
    modifies encoder, encoder.symbols, decoder, decoder.symbols, packed, back
    ensures n > 0 ==> m <= back.Length && back[..m] == Flatten(buffers)
    ensures n > 0 ==> |encoded| == |decoded| == |Flatten(buffers)| + 1
    ensures n > 0 ==> forall j :: 0 <= j < |encoded| ==> Mirrored(encoded[j], decoded[j])
    ensures n > 0 && encoder != decoder && encoder.symbols != decoder.symbols ==>
      && Current(encoded, encoder, p) && Current(decoded, decoder, q)
      && Mirrored(View(encoder, p), View(decoder, q))
  {
    hide Compressed, Decompressed, Stood, Mirrored, History, ReadHistory;
    ghost var data := Flatten(buffers);
    RoundTrip(data, back.Length);
    n, encoded, p := Compress(encoder, buffers, inLimit, packed);
    m, decoded, q := 0, [], 0;
    if n > 0 {
      var lost;
      ghost var turns;
      m, lost, turns, decoded, q := Decompress(decoder, packed[..n], back);
      SameHistory(data, |data|);
      assert data[..|data|] == data;
      MirrorAll(encoded, decoded, History(data));
      HistoryLength(encoded, data);
    }
  }

  lemma {:induction false} HistoryLength(pools: seq<Pool>, data: seq<byte>)
    requires Stood(pools, History(data))
    ensures |pools| == |data| + 1
  {
    hide Standing;
    HistorySize(data);
  }

  lemma {:induction false} HistorySize(data: seq<byte>)
    ensures |History(data)| == |data| + 1
    decreases |data|
  {
    hide ModelAfter;
    if data != [] { HistorySize(data[..|data| - 1]); }
  }
}
