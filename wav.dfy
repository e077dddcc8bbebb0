/** The RIFF/WAVE container written by Python's `wave` module for 16-bit
    PCM: a 12-byte RIFF header, a 16-byte `fmt ` chunk (format tag 1) and a
    `data` chunk holding the raw little-endian samples. */
module Wav {
  import opened Pcm
  import opened Wrappers

  const RiffTag: Bytes := [0x52, 0x49, 0x46, 0x46]   // "RIFF"
  const WaveTag: Bytes := [0x57, 0x41, 0x56, 0x45]   // "WAVE"
  const FmtTag: Bytes := [0x66, 0x6d, 0x74, 0x20]    // "fmt "
  const DataTag: Bytes := [0x64, 0x61, 0x74, 0x61]   // "data"

  const PcmFormat: nat := 1
  /** Bytes per sample: `get_sample_size(paInt16)` and `setsampwidth(2)`. */
  const SampleWidth: nat := 2
  const HeaderSize: nat := 44

  /** Header values `wave` can pack: every field fits its 16- or 32-bit slot
      and channel count and rate are positive. */
  predicate ValidFormat(channels: nat, sampleRate: nat)
  {
    1 <= channels && channels < 0x1_0000 && channels * SampleWidth < 0x1_0000 &&
    1 <= sampleRate && sampleRate < 0x1_0000_0000 &&
    channels * sampleRate * SampleWidth < 0x1_0000_0000
  }

  /** Payload sizes whose RIFF length (36 + size) fits its 32-bit field;
      `wave` raises `struct.error` on anything larger. */
  predicate FitsInWav(dataLength: nat)
  {
    36 + dataLength < 0x1_0000_0000
  }

  /** What a decoder reads back from a WAV file. */
  datatype WavInfo = WavInfo(channels: nat, sampleRate: nat, sampleWidth: nat, data: Bytes)

  /** "RIFF", the length of everything after these eight bytes, "WAVE". */
  function RiffHeader(dataLength: nat): (r: Bytes)
    requires FitsInWav(dataLength)
    ensures |r| == 12 && r[0..4] == RiffTag && r[4..8] == LE32(36 + dataLength) && r[8..12] == WaveTag
  {
    RiffTag + LE32(36 + dataLength) + WaveTag
  }

  /** The `fmt ` chunk: size 16, format tag, channels, rate, byte rate,
      block alignment and bits per sample. */
  function FmtChunk(channels: nat, sampleRate: nat): (r: Bytes)
    requires ValidFormat(channels, sampleRate)
    ensures |r| == 24 && r[0..4] == FmtTag && r[4..8] == LE32(16) && r[8..10] == LE16(PcmFormat)
    ensures r[10..12] == LE16(channels) && r[12..16] == LE32(sampleRate)
    ensures r[16..20] == LE32(channels * sampleRate * SampleWidth)
    ensures r[20..22] == LE16(channels * SampleWidth) && r[22..24] == LE16(8 * SampleWidth)
  {
    FmtTag + LE32(16) + LE16(PcmFormat) + LE16(channels) + LE32(sampleRate) +
    LE32(channels * sampleRate * SampleWidth) + LE16(channels * SampleWidth) + LE16(8 * SampleWidth)
  }

  /** "data" and the payload length. */
  function DataHeader(dataLength: nat): (r: Bytes)
    requires dataLength < 0x1_0000_0000
    ensures |r| == 8 && r[0..4] == DataTag && r[4..8] == LE32(dataLength)
  {
    DataTag + LE32(dataLength)
  }

  function Header(channels: nat, sampleRate: nat, dataLength: nat): (r: Bytes)
    requires ValidFormat(channels, sampleRate) && FitsInWav(dataLength)
    ensures |r| == HeaderSize
  {
    RiffHeader(dataLength) + FmtChunk(channels, sampleRate) + DataHeader(dataLength)
  }

  /** The bytes of the finished WAV file. */
  function WavFile(channels: nat, sampleRate: nat, data: Bytes): (r: Bytes)
    requires ValidFormat(channels, sampleRate) && FitsInWav(|data|)
    ensures |r| == HeaderSize + |data| && r[HeaderSize..] == data
  {
    Header(channels, sampleRate, |data|) + data
  }

  /** `_frames_to_wav`: open a `wave` writer on an in-memory buffer, set the
      channel count, a sample width of two bytes and the rate, write the
      frames, and read the buffer back. The writer emits the RIFF header,
      the `fmt ` chunk, then the `data` chunk header and the payload. */
  method WriteWav(channels: nat, sampleRate: nat, audioData: Bytes) returns (wav: Bytes)
    requires ValidFormat(channels, sampleRate) && FitsInWav(|audioData|)
    ensures wav == WavFile(channels, sampleRate, audioData)
  {
    var buffer: Bytes := [];
    // RIFF header
    buffer := buffer + RiffTag + LE32(36 + |audioData|) + WaveTag;
    assert buffer == RiffHeader(|audioData|);
    // fmt chunk
    var fmt := FmtTag + LE32(16) + LE16(PcmFormat) + LE16(channels) + LE32(sampleRate);
    fmt := fmt + LE32(channels * sampleRate * SampleWidth) + LE16(channels * SampleWidth) + LE16(8 * SampleWidth);
    assert fmt == FmtChunk(channels, sampleRate);
    buffer := buffer + fmt;
    // data chunk
    buffer := buffer + (DataTag + LE32(|audioData|));
    assert buffer == Header(channels, sampleRate, |audioData|);
    buffer := buffer + audioData;
    wav := buffer;
  }

  /** A reader for canonical 16-bit PCM WAV files: checks the chunk tags, the
      `fmt ` chunk size and format tag, and that the declared payload is
      present. */
  function ParseWav(b: Bytes): Option<WavInfo>
  {
    if |b| < HeaderSize then None
    else if b[0..4] != RiffTag || b[8..12] != WaveTag || b[12..16] != FmtTag || b[36..40] != DataTag then None
    else if U32At(b, 16) != 16 || U16At(b, 20) != PcmFormat then None
    else
      var channels := U16At(b, 22);
      var width := U16At(b, 34) / 8;
      var length := U32At(b, 40);
      if U16At(b, 32) != channels * width || HeaderSize + length > |b| then None
      else Some(WavInfo(channels, U32At(b, 24), width, b[HeaderSize..HeaderSize + length]))
  }

  /** Reading back a written file yields the channel count, the rate, a
      sample width of two bytes and exactly the payload that was written. */
  lemma WavRoundTrip(channels: nat, sampleRate: nat, data: Bytes)
    requires ValidFormat(channels, sampleRate) && FitsInWav(|data|)
    ensures ParseWav(WavFile(channels, sampleRate, data)) == Some(WavInfo(channels, sampleRate, SampleWidth, data))
  {
    var b := WavFile(channels, sampleRate, data);
    RiffFields(channels, sampleRate, data);
    FmtFields(channels, sampleRate, data);
    RateFields(channels, sampleRate, data);
    DataFields(channels, sampleRate, data);
    LE32Decodes(16, b, 16);
    LE16Decodes(PcmFormat, b, 20);
    LE16Decodes(channels, b, 22);
    LE32Decodes(sampleRate, b, 24);
    LE16Decodes(channels * SampleWidth, b, 32);
    LE16Decodes(8 * SampleWidth, b, 34);
    LE32Decodes(|data|, b, 40);
    assert b[HeaderSize..HeaderSize + |data|] == data;
  }

  /** Where the RIFF header's fields sit in the file. */
  lemma RiffFields(channels: nat, sampleRate: nat, data: Bytes)
    requires ValidFormat(channels, sampleRate) && FitsInWav(|data|)
    ensures var b := WavFile(channels, sampleRate, data);
      b[0..4] == RiffTag && b[4..8] == LE32(36 + |data|) && b[8..12] == WaveTag
  {
    var b := WavFile(channels, sampleRate, data);
    var riff := RiffHeader(|data|);
    HeaderLayout(channels, sampleRate, data);
    SliceOfPart(b, riff, 0, 0, 4);
    SliceOfPart(b, riff, 0, 4, 8);
    SliceOfPart(b, riff, 0, 8, 12);
  }

  /** Where the `fmt ` chunk's tag, size, format tag and channel count sit
      in the file. */
  lemma FmtFields(channels: nat, sampleRate: nat, data: Bytes)
    requires ValidFormat(channels, sampleRate) && FitsInWav(|data|)
    ensures var b := WavFile(channels, sampleRate, data);
      b[12..16] == FmtTag && b[16..20] == LE32(16) && b[20..22] == LE16(PcmFormat) &&
      b[22..24] == LE16(channels)
  {
    var b := WavFile(channels, sampleRate, data);
    var fmt := FmtChunk(channels, sampleRate);
    HeaderLayout(channels, sampleRate, data);
    SliceOfPart(b, fmt, 12, 0, 4);
    SliceOfPart(b, fmt, 12, 4, 8);
    SliceOfPart(b, fmt, 12, 8, 10);
    SliceOfPart(b, fmt, 12, 10, 12);
  }

  /** Where the `fmt ` chunk's rate, byte rate, block alignment and bits
      per sample sit in the file. */
  lemma RateFields(channels: nat, sampleRate: nat, data: Bytes)
    requires ValidFormat(channels, sampleRate) && FitsInWav(|data|)
    ensures var b := WavFile(channels, sampleRate, data);
      b[24..28] == LE32(sampleRate) &&
      b[28..32] == LE32(channels * sampleRate * SampleWidth) &&
      b[32..34] == LE16(channels * SampleWidth) && b[34..36] == LE16(8 * SampleWidth)
  {
    var b := WavFile(channels, sampleRate, data);
    var fmt := FmtChunk(channels, sampleRate);
    HeaderLayout(channels, sampleRate, data);
    SliceOfPart(b, fmt, 12, 12, 16);
    SliceOfPart(b, fmt, 12, 16, 20);
    SliceOfPart(b, fmt, 12, 20, 22);
    SliceOfPart(b, fmt, 12, 22, 24);
  }

  /** Where the data chunk header's fields sit in the file. */
  lemma DataFields(channels: nat, sampleRate: nat, data: Bytes)
    requires ValidFormat(channels, sampleRate) && FitsInWav(|data|)
    ensures var b := WavFile(channels, sampleRate, data);
      b[36..40] == DataTag && b[40..44] == LE32(|data|)
  {
    var b := WavFile(channels, sampleRate, data);
    var dh := DataHeader(|data|);
    HeaderLayout(channels, sampleRate, data);
    SliceOfPart(b, dh, 36, 0, 4);
    SliceOfPart(b, dh, 36, 4, 8);
  }

  /** The file is the RIFF header, the `fmt ` chunk and the data header,
      back to back, followed by the payload. */
  lemma HeaderLayout(channels: nat, sampleRate: nat, data: Bytes)
    requires ValidFormat(channels, sampleRate) && FitsInWav(|data|)
    ensures var b := WavFile(channels, sampleRate, data);
      b[0..12] == RiffHeader(|data|) && b[12..36] == FmtChunk(channels, sampleRate) &&
      b[36..44] == DataHeader(|data|)
  {
    var riff, fmt, dh := RiffHeader(|data|), FmtChunk(channels, sampleRate), DataHeader(|data|);
    var b := riff + fmt + dh + data;
    assert WavFile(channels, sampleRate, data) == b;
    assert b[0..12] == riff;
    assert b[12..36] == fmt;
    assert b[36..44] == dh;
  }

  /** A slice of a part laid out at `offset` is the same slice of the file. */
  lemma SliceOfPart(b: Bytes, part: Bytes, offset: nat, i: nat, j: nat)
    requires offset + |part| <= |b| && b[offset..offset + |part|] == part
    requires i <= j <= |part|
    ensures b[offset + i..offset + j] == part[i..j]
  {
    forall k | 0 <= k < j - i
      ensures b[offset + i..offset + j][k] == part[i..j][k]
    {
      assert part[i + k] == b[offset..offset + |part|][i + k];
    }
  }

  /** The declared sizes agree with the file: the RIFF length counts every
      byte after the first eight, and the data length is the payload size. */
  lemma WavSizesDeclared(channels: nat, sampleRate: nat, data: Bytes)
    requires ValidFormat(channels, sampleRate) && FitsInWav(|data|)
    ensures var b := WavFile(channels, sampleRate, data);
      U32At(b, 4) == |b| - 8 && U32At(b, 40) == |data| &&
      U32At(b, 28) == channels * sampleRate * SampleWidth
  {
    var b := WavFile(channels, sampleRate, data);
    RiffFields(channels, sampleRate, data);
    FmtFields(channels, sampleRate, data);
    RateFields(channels, sampleRate, data);
    DataFields(channels, sampleRate, data);
    LE32Decodes(36 + |data|, b, 4);
    LE32Decodes(channels * sampleRate * SampleWidth, b, 28);
    LE32Decodes(|data|, b, 40);
  }

  /** A WAV holding the byte image of n samples decodes to those n samples. */
  lemma SamplesRoundTripThroughWav(channels: nat, sampleRate: nat, samples: seq<int16>)
    requires ValidFormat(channels, sampleRate) && FitsInWav(2 * |samples|)
    ensures var info := ParseWav(WavFile(channels, sampleRate, SamplesToBytes(samples)));
      info.Some? && |info.value.data| % 2 == 0 && BytesToSamples(info.value.data) == samples
  {
    WavRoundTrip(channels, sampleRate, SamplesToBytes(samples));
    SamplesRoundTrip(samples);
  }
}
