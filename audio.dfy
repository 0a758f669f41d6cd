/**
 * Audio samples as they arrive from the browser: a binary websocket message is a
 * run of little-endian 32-bit floats (server/src/session.rs, `user_message`).
 * Only the silence detector reads a sample's value, and here its answer is the
 * `pivot` parameter, so a sample is modelled by its 32-bit pattern.
 */
module Audio {
  type Byte = bv8

  /** The IEEE-754 bit pattern of one f32 sample. */
  type Sample = bv32

  /** The bit pattern `f32::from_le_bytes([b0, b1, b2, b3])` denotes. */
  function DecodeSample(b0: Byte, b1: Byte, b2: Byte, b3: Byte): Sample
  {
    ((b3 as Sample) << 24) | ((b2 as Sample) << 16) | ((b1 as Sample) << 8) | (b0 as Sample)
  }

  /** `x.to_le_bytes()`: the four bytes a client sends for one sample. */
  function EncodeSample(x: Sample): (b: seq<Byte>)
    ensures |b| == 4
  {
    [(x & 0xFF) as Byte, ((x >> 8) & 0xFF) as Byte, ((x >> 16) & 0xFF) as Byte, ((x >> 24) & 0xFF) as Byte]
  }

  lemma SampleRoundTrip(x: Sample)
    ensures var b := EncodeSample(x); DecodeSample(b[0], b[1], b[2], b[3]) == x
  {
  }

  /**
   * `data.chunks_exact(4).map(f32::from_le_bytes)`: one sample per complete
   * group of four bytes, in order; the trailing `|data| % 4` bytes are dropped.
   */
  function DecodeSamples(data: seq<Byte>): (v: seq<Sample>)
    ensures |v| == |data| / 4
    ensures forall i :: 0 <= i < |v| ==>
      v[i] == DecodeSample(data[4 * i], data[4 * i + 1], data[4 * i + 2], data[4 * i + 3])
    decreases |data|
  {
    if |data| < 4 then []
    else [DecodeSample(data[0], data[1], data[2], data[3])] + DecodeSamples(data[4..])
  }

  /** What a client sends for a run of samples. */
  function EncodeSamples(v: seq<Sample>): (data: seq<Byte>)
    ensures |data| == 4 * |v|
  {
    if v == [] then [] else EncodeSample(v[0]) + EncodeSamples(v[1..])
  }

  /** Decoding undoes the client's encoding: no sample is lost, invented or reordered. */
  lemma {:induction false} DecodeEncode(v: seq<Sample>)
    ensures DecodeSamples(EncodeSamples(v)) == v
  {
    if v != [] {
      var data := EncodeSamples(v);
      assert data[4..] == EncodeSamples(v[1..]);
      DecodeEncode(v[1..]);
      SampleRoundTrip(v[0]);
    }
  }

  /** Bytes after the last complete group of four do not change the decoded samples. */
  lemma {:induction false} DecodeIgnoresTrailingBytes(data: seq<Byte>)
    ensures DecodeSamples(data) == DecodeSamples(data[..|data| - |data| % 4])
  {
    if |data| >= 4 {
      var rest := data[4..];
      DecodeIgnoresTrailingBytes(rest);
      assert |data| % 4 == |rest| % 4;
      var whole := data[..|data| - |data| % 4];
      assert whole[..4] == data[..4];
      assert whole[4..] == rest[..|rest| - |rest| % 4];
    }
  }
}
