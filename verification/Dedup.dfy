/** Compressing and decompressing (encoder.c, decoder.c). */
module Dedup {
  import opened Bytes
  import opened FileFormat
  import opened Encoder
  import opened Decoder

  /** What Encode writes Decode turns back into the input, if unzip undoes zip on the chunks of this input, no two of
      them have the same digest, and there are not too many of them. */
  method RoundTrip(k: Codec, coarse: seq<seq<Byte>>, rabinseg: Segmenter, head: seq<Byte>) returns (output: seq<Byte>)
    requires forall i :: 0 <= i < |coarse| ==> coarse[i] != []
    requires Good(k, ChunksOf(coarse, rabinseg)) && |ChunksOf(coarse, rabinseg)| + 2 < NUM_BUF && |head| == HEAD_LEN
    ensures output == Concat(coarse)
  {
    var file := Encode(k, coarse, rabinseg, head);
    output := Decode(k, file, head, ChunksOf(coarse, rabinseg));
  }
}
