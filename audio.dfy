/** What the two recording backends share: their configuration, the
    exceptions they can raise, the chunk counts derived from durations, the
    state of a stream handle, and `_frames_to_wav`. */
module Audio {
  import opened Pcm
  import opened Wav
  import opened Wrappers

  /** The exceptions the recording code lets through: the device failing to
      open or to deliver, the `wave` writer's `struct.error` on a payload
      too large for a 32-bit RIFF length, and the `AttributeError` of a
      stream field that was never assigned. */
  datatype AudioError = DeviceUnavailable | WavTooLarge | StreamAttributeMissing

  /** Constructor arguments of a recorder. Durations are whole milliseconds;
      `silenceThreshold` is the mean absolute sample value above which a
      frame counts as speech. */
  datatype AudioConfig = AudioConfig(
    sampleRate: nat,
    channels: nat,
    chunkSize: nat,
    silenceThreshold: int,
    silenceDurationMs: nat)

  /** Configurations the recorder can run with: a WAV header can hold the
      channel count and rate, and the chunk size is positive. */
  predicate ValidConfig(config: AudioConfig)
  {
    ValidFormat(config.channels, config.sampleRate) && config.chunkSize > 0
  }

  /** `int(duration * (sample_rate / chunk_size))`: the number of whole
      chunks that fit in a duration given in milliseconds. */
  function ChunkCount(durationMs: nat, sampleRate: nat, chunkSize: nat): (r: nat)
    requires chunkSize > 0
    ensures r * chunkSize * 1000 <= durationMs * sampleRate < (r + 1) * chunkSize * 1000
  {
    var q := (durationMs * sampleRate) / (1000 * chunkSize);
    assert q * (1000 * chunkSize) <= durationMs * sampleRate < (q + 1) * (1000 * chunkSize);
    q
  }

  /** At 16 kHz with 1024-sample chunks, two seconds of silence is 31 chunks
      and thirty seconds of recording is 468 chunks. */
  lemma DefaultChunkCounts()
    ensures ChunkCount(2000, 16000, 1024) == 31
    ensures ChunkCount(30000, 16000, 1024) == 468
  {
  }

  /** The state of a recorder's stream field: never assigned, `None`, an
      open running stream, or a stream object that has been closed. */
  datatype StreamHandle = Unset | NoStream | Running | Closed

  /** The bytes `_frames_to_wav` returns for a payload, or the error the
      `wave` writer raises when the payload is too large. */
  function WavResult(config: AudioConfig, audioData: Bytes): Result<Bytes, AudioError>
    requires ValidConfig(config)
  {
    if FitsInWav(|audioData|) then Success(WavFile(config.channels, config.sampleRate, audioData))
    else Failure(WavTooLarge)
  }

  /** `_frames_to_wav`: a WAV with the recorder's channel count and rate,
      16-bit samples, and the payload as its data chunk. */
  method FramesToWav(config: AudioConfig, audioData: Bytes) returns (r: Result<Bytes, AudioError>)
    requires ValidConfig(config)
    ensures r.Success? <==> FitsInWav(|audioData|)
    ensures r.Success? ==> ParseWav(r.value) == Some(WavInfo(config.channels, config.sampleRate, SampleWidth, audioData))
    ensures r == WavResult(config, audioData)
  {
    if !FitsInWav(|audioData|) {
      return Failure(WavTooLarge);
    }
    var wav := WriteWav(config.channels, config.sampleRate, audioData);
    WavRoundTrip(config.channels, config.sampleRate, audioData);
    r := Success(wav);
  }
}
