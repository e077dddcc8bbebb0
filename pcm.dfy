/** Raw PCM data: bytes, signed 16-bit samples, and their little-endian
    byte encoding, as produced by the audio devices and written into WAV files. */
module Pcm {

  newtype uint8 = x: int | 0 <= x < 0x100
  newtype int16 = x: int | -0x8000 <= x < 0x8000

  type Bytes = seq<uint8>

  /** One block of interleaved 16-bit samples, as delivered by the device. */
  type Frame = seq<int16>

  // ---------------------------------------------------------------------
  // Little-endian unsigned fields

  function LE16(x: nat): (r: Bytes)
    requires x < 0x1_0000
    ensures |r| == 2
  {
    [(x % 0x100) as uint8, (x / 0x100) as uint8]
  }

  function LE32(x: nat): (r: Bytes)
    requires x < 0x1_0000_0000
    ensures |r| == 4
  {
    LE16(x % 0x1_0000) + LE16(x / 0x1_0000)
  }

  function U16At(b: Bytes, i: nat): (r: nat)
    requires i + 2 <= |b|
    ensures r < 0x1_0000
  {
    b[i] as nat + 0x100 * b[i + 1] as nat
  }

  function U32At(b: Bytes, i: nat): (r: nat)
    requires i + 4 <= |b|
    ensures r < 0x1_0000_0000
  {
    U16At(b, i) + 0x1_0000 * U16At(b, i + 2)
  }

  lemma LE16Decodes(x: nat, b: Bytes, i: nat)
    requires x < 0x1_0000 && i + 2 <= |b| && b[i..i + 2] == LE16(x)
    ensures U16At(b, i) == x
  {
    assert b[i] == LE16(x)[0] && b[i + 1] == LE16(x)[1];
  }

  lemma LE32Decodes(x: nat, b: Bytes, i: nat)
    requires x < 0x1_0000_0000 && i + 4 <= |b| && b[i..i + 4] == LE32(x)
    ensures U32At(b, i) == x
  {
    assert b[i..i + 2] == LE32(x)[..2] == LE16(x % 0x1_0000);
    assert b[i + 2..i + 4] == LE32(x)[2..] == LE16(x / 0x1_0000);
    LE16Decodes(x % 0x1_0000, b, i);
    LE16Decodes(x / 0x1_0000, b, i + 2);
  }

  // ---------------------------------------------------------------------
  // Signed 16-bit samples (two's complement, little-endian)

  function SampleBytes(s: int16): (r: Bytes)
    ensures |r| == 2
  {
    LE16(if s < 0 then s as int + 0x1_0000 else s as int)
  }

  function SampleAt(b: Bytes, i: nat): int16
    requires i + 2 <= |b|
  {
    var u := U16At(b, i);
    if u >= 0x8000 then (u - 0x1_0000) as int16 else u as int16
  }

  /** The byte image of a sample sequence (numpy's `tobytes` on int16 data). */
  function SamplesToBytes(samples: seq<int16>): (r: Bytes)
    ensures |r| == 2 * |samples|
  {
    if samples == [] then [] else SampleBytes(samples[0]) + SamplesToBytes(samples[1..])
  }

  /** The samples a byte buffer holds (numpy's `frombuffer(data, dtype=int16)`). */
  function BytesToSamples(b: Bytes): (r: seq<int16>)
    requires |b| % 2 == 0
    ensures |r| == |b| / 2
  {
    if b == [] then [] else [SampleAt(b, 0)] + BytesToSamples(b[2..])
  }

  lemma SampleRoundTrip(s: int16)
    ensures SampleAt(SampleBytes(s), 0) == s
  {
    var u := if s < 0 then s as int + 0x1_0000 else s as int;
    LE16Decodes(u, SampleBytes(s), 0);
  }

  /** Decoding the byte image of samples gives the samples back. */
  lemma {:induction false} SamplesRoundTrip(samples: seq<int16>)
    ensures BytesToSamples(SamplesToBytes(samples)) == samples
  {
    if samples != [] {
      var b := SamplesToBytes(samples);
      assert b[..2] == SampleBytes(samples[0]);
      assert b[2..] == SamplesToBytes(samples[1..]);
      SampleRoundTrip(samples[0]);
      assert SampleAt(b, 0) == SampleAt(SampleBytes(samples[0]), 0);
      SamplesRoundTrip(samples[1..]);
    }
  }

  /** Every pair of bytes is the image of some sample: encoding the decoded
      samples gives the bytes back. */
  lemma {:induction false} BytesRoundTrip(b: Bytes)
    requires |b| % 2 == 0
    ensures SamplesToBytes(BytesToSamples(b)) == b
  {
    if b != [] {
      var s := SampleAt(b, 0);
      assert SampleBytes(s) == b[..2];
      BytesRoundTrip(b[2..]);
      assert BytesToSamples(b)[1..] == BytesToSamples(b[2..]);
      assert b == b[..2] + b[2..];
    }
  }

  // ---------------------------------------------------------------------
  // Joining frames

  /** `b''.join(frames)` / `np.concatenate(frames)`: the frames end to end. */
  function Flatten<T>(parts: seq<seq<T>>): (r: seq<T>)
  {
    if parts == [] then [] else parts[0] + Flatten(parts[1..])
  }

  /** Taking one more element extends a prefix by that element. */
  lemma TakeOneMore<T>(s: seq<T>, i: nat)
    requires i < |s|
    ensures s[..i + 1] == s[..i] + [s[i]]
  {
  }

  /** Flattening a prefix never gives more than flattening the whole. */
  lemma {:induction false} FlattenPrefixLength<T>(parts: seq<seq<T>>, n: nat)
    requires n <= |parts|
    ensures |Flatten(parts[..n])| <= |Flatten(parts)|
    ensures Flatten(parts) == Flatten(parts[..n]) + Flatten(parts[n..])
  {
    if n > 0 {
      assert parts[..n][1..] == parts[1..][..n - 1];
      assert parts[n..] == parts[1..][n - 1..];
      FlattenPrefixLength(parts[1..], n - 1);
    } else {
      assert parts[..n] == [] && parts[n..] == parts;
    }
  }

  /** The byte image of concatenated sample frames is the concatenation of
      the frames' byte images: the two backends' packaging agrees. */
  lemma {:induction false} SamplesToBytesFlatten(frames: seq<Frame>)
    ensures SamplesToBytes(Flatten(frames)) == Flatten(seq(|frames|, i requires 0 <= i < |frames| => SamplesToBytes(frames[i])))
  {
    if frames != [] {
      SamplesToBytesAppend(frames[0], Flatten(frames[1..]));
      SamplesToBytesFlatten(frames[1..]);
      var images := seq(|frames|, i requires 0 <= i < |frames| => SamplesToBytes(frames[i]));
      assert images[1..] == seq(|frames[1..]|, i requires 0 <= i < |frames[1..]| => SamplesToBytes(frames[1..][i]));
    }
  }

  lemma {:induction false} SamplesToBytesAppend(a: seq<int16>, b: seq<int16>)
    ensures SamplesToBytes(a + b) == SamplesToBytes(a) + SamplesToBytes(b)
  {
    if a != [] {
      assert (a + b)[1..] == a[1..] + b;
      SamplesToBytesAppend(a[1..], b);
    } else {
      assert a + b == b;
    }
  }
}
