/** The PyAudio recorder: `record_audio` pulls chunks from a blocking stream
    and runs the silence detector on each; manual recording fills a buffer
    from the stream callback between `start_recording` and `stop_recording`.
    The device is the sequence of chunks it would deliver. */
module Stt {
  import opened Pcm
  import opened Wav
  import opened Wrappers
  import opened Detector
  import opened Audio

  /** The loudness the detector finds in each chunk, decoding its bytes as
      int16 samples (`np.frombuffer(data, dtype=np.int16)`). */
  function ChunkLouds(chunks: seq<Bytes>, threshold: int): (r: seq<bool>)
    requires forall i :: 0 <= i < |chunks| ==> |chunks[i]| % 2 == 0
    ensures |r| == |chunks|
  {
    seq(|chunks|, i requires 0 <= i < |chunks| => IsLoud(BytesToSamples(chunks[i]), threshold))
  }

  /** On chunks without a -32768 sample, each verdict is the one numpy's
      wrapping `abs` gives. */
  lemma ChunkLoudsMatchAsWritten(chunks: seq<Bytes>, threshold: int)
    requires forall i :: 0 <= i < |chunks| ==> |chunks[i]| % 2 == 0
    requires forall i, j :: 0 <= i < |chunks| && 0 <= j < |chunks[i]| / 2 ==> BytesToSamples(chunks[i])[j] != -0x8000
    ensures forall i :: 0 <= i < |chunks| ==>
      ChunkLouds(chunks, threshold)[i] == IsLoudAsWritten(BytesToSamples(chunks[i]), threshold)
  {
    forall i | 0 <= i < |chunks|
      ensures ChunkLouds(chunks, threshold)[i] == IsLoudAsWritten(BytesToSamples(chunks[i]), threshold)
    {
      AsWrittenAgreesWithoutMinimum(BytesToSamples(chunks[i]), threshold);
    }
  }

  /** The chunk loop of `record_audio`: read chunks, keeping each, until the
      silence rule fires on the chunk just read or `maxChunks` have been
      read. The chunks read are exactly the prefix the detector run
      consumes; `None` when the device fails before the loop ends. */
  method ReadChunks(source: seq<Bytes>, threshold: int, silenceChunksThreshold: nat, maxChunks: nat)
    returns (frames: Option<seq<Bytes>>)
    requires forall i :: 0 <= i < |source| ==> |source[i]| % 2 == 0
    ensures var e := PullRun(Initial, ChunkLouds(source, threshold), silenceChunksThreshold, maxChunks);
      frames == if e.DeviceLost? then None else Some(source[..e.count])
  {
    ghost var louds := ChunkLouds(source, threshold);
    ghost var run := PullRun(Initial, louds, silenceChunksThreshold, maxChunks);
    var read: seq<Bytes> := [];
    var silentChunks: nat := 0;
    var startedSpeaking := false;
    var i := 0;
    while i < maxChunks
      invariant i <= maxChunks && i <= |source|
      invariant read == source[..i]
      invariant run == Shift(PullRun(DetectorState(startedSpeaking, silentChunks), louds[i..], silenceChunksThreshold, maxChunks - i), i)
    {
      if i == |source| {
        // stream.read raises
        return None;
      }
      var data := source[i];
      TakeOneMore(source, i);
      read := read + [data];
      var loud := IsLoud(BytesToSamples(data), threshold);
      assert loud == louds[i];
      ghost var before := DetectorState(startedSpeaking, silentChunks);
      if loud {
        startedSpeaking := true;
        silentChunks := 0;
      } else if startedSpeaking {
        silentChunks := silentChunks + 1;
      }
      PullLoopAdvance(run, before, DetectorState(startedSpeaking, silentChunks), louds, i, silenceChunksThreshold, maxChunks);
      if startedSpeaking && silentChunks > silenceChunksThreshold {
        break;
      }
      i := i + 1;
    }
    return Some(read);
  }

  /** What the stream callback tells PyAudio: `paContinue` or `paComplete`. */
  datatype CallbackFlag = Continue | Complete

  /** How the wait for Enter in `manual_listen_and_transcribe` ends. */
  datatype InputEvent = EnterPressed | Interrupted

  class WhisperStt {
    const config: AudioConfig
    var isRecording: bool
    var recordingFrames: seq<Bytes>
    var recordingStream: StreamHandle
    /** `self.audio.terminate()` has been called. */
    ghost var terminated: bool

    constructor (config: AudioConfig)
      requires ValidConfig(config)
      ensures this.config == config
      ensures !isRecording && recordingFrames == [] && recordingStream == NoStream && !terminated
    {
      this.config := config;
      isRecording := false;
      recordingFrames := [];
      recordingStream := NoStream;
      terminated := false;
    }

    function SilenceChunks(): nat
      reads this
      requires ValidConfig(config)
    {
      ChunkCount(config.silenceDurationMs, config.sampleRate, config.chunkSize)
    }

    function MaxChunks(maxDurationSecs: nat): nat
      reads this
      requires ValidConfig(config)
    {
      ChunkCount(maxDurationSecs * 1000, config.sampleRate, config.chunkSize)
    }

    /** `record_audio`: the result is the WAV of exactly the chunks the loop
        read, in order, where the loop stops after the chunk on which the
        silence rule fires or at the chunk cap; if the device fails first
        the error propagates. The stream is closed on every exit. */
    method RecordAudio(source: seq<Bytes>, maxDurationSecs: nat) returns (result: Result<Bytes, AudioError>, ghost streamOpen: bool)
      requires ValidConfig(config)
      requires forall i :: 0 <= i < |source| ==> |source[i]| % 2 == 0
      ensures !streamOpen
      ensures var e := PullRun(Initial, ChunkLouds(source, config.silenceThreshold), SilenceChunks(), MaxChunks(maxDurationSecs));
        result == if e.DeviceLost? then Failure(DeviceUnavailable) else WavResult(config, Flatten(source[..e.count]))
    {
      var silenceChunksThreshold := ChunkCount(config.silenceDurationMs, config.sampleRate, config.chunkSize);
      var maxChunks := ChunkCount(maxDurationSecs * 1000, config.sampleRate, config.chunkSize);
      streamOpen := true;
      var read := ReadChunks(source, config.silenceThreshold, silenceChunksThreshold, maxChunks);
      // the finally clause stops and closes the stream on both exits
      streamOpen := false;
      if read.None? {
        return Failure(DeviceUnavailable), streamOpen;
      }
      result := FramesToWav(config, Flatten(read.value));
    }

    /** `start_recording`: a no-op while recording; otherwise set the flag,
        empty the buffer and open a running stream. If the device cannot be
        opened the exception escapes with the flag already set and the
        stream field untouched. */
    method StartRecording(deviceOk: bool) returns (outcome: Outcome<AudioError>)
      modifies this`isRecording, this`recordingFrames, this`recordingStream
      ensures old(isRecording) ==>
        outcome == Pass && isRecording && recordingFrames == old(recordingFrames) && recordingStream == old(recordingStream)
      ensures !old(isRecording) ==> isRecording && recordingFrames == []
      ensures !old(isRecording) && deviceOk ==> outcome == Pass && recordingStream == Running
      ensures !old(isRecording) && !deviceOk ==> outcome == Fail(DeviceUnavailable) && recordingStream == old(recordingStream)
    {
      if isRecording {
        return Pass;
      }
      isRecording := true;
      recordingFrames := [];
      if !deviceOk {
        return Fail(DeviceUnavailable);
      }
      recordingStream := Running;
      outcome := Pass;
    }

    /** `_recording_callback`: buffer the chunk and continue while
        recording; otherwise tell the stream to complete. */
    method RecordingCallback(inData: Bytes) returns (flag: CallbackFlag)
      modifies this`recordingFrames
      ensures flag == if isRecording then Continue else Complete
      ensures recordingFrames == if isRecording then old(recordingFrames) + [inData] else old(recordingFrames)
    {
      if isRecording {
        recordingFrames := recordingFrames + [inData];
        return Continue;
      }
      return Complete;
    }

    /** `stop_recording`: `None` if not recording. Otherwise the flag is
        cleared and the stream released; an empty buffer gives `None`, and a
        non-empty one is emptied and returned as a WAV of its chunks joined
        in order. */
    method StopRecording() returns (wav: Result<Option<Bytes>, AudioError>)
      requires ValidConfig(config)
      modifies this`isRecording, this`recordingFrames, this`recordingStream
      ensures !old(isRecording) ==> wav == Success(None) && unchanged(this)
      ensures old(isRecording) ==> !isRecording && recordingStream == NoStream && recordingFrames == []
      ensures old(isRecording) && old(recordingFrames) == [] ==> wav == Success(None)
      ensures old(isRecording) && old(recordingFrames) != [] ==>
        wav == match WavResult(config, Flatten(old(recordingFrames)))
          case Success(bytes) => Success(Some(bytes))
          case Failure(e) => Failure(e)
    {
      if !isRecording {
        return Success(None);
      }
      isRecording := false;
      if recordingStream != NoStream {
        // stop_stream() and close()
        recordingStream := NoStream;
      }
      if recordingFrames == [] {
        return Success(None);
      }
      var audioData := Flatten(recordingFrames);
      recordingFrames := [];
      var packaged := FramesToWav(config, audioData);
      wav := match packaged
        case Success(bytes) => Success(Some(bytes))
        case Failure(e) => Failure(e);
    }

    /** The end of `manual_listen_and_transcribe` once the console wait is
        over: Enter stops the recording and yields its audio for
        transcription; an interrupt clears the flag, stops and closes the
        stream (leaving the closed object in the field and the buffer as it
        was) and yields no audio. */
    method ManualListenEnd(event: InputEvent) returns (audio: Result<Option<Bytes>, AudioError>)
      requires ValidConfig(config)
      modifies this`isRecording, this`recordingFrames, this`recordingStream
      ensures event == Interrupted ==>
        audio == Success(None) && !isRecording && recordingFrames == old(recordingFrames) &&
        recordingStream == (if old(recordingStream) == NoStream then NoStream else Closed)
      ensures event == EnterPressed && old(isRecording) ==>
        !isRecording && recordingStream == NoStream && recordingFrames == [] &&
        audio == if old(recordingFrames) == [] then Success(None) else
          match WavResult(config, Flatten(old(recordingFrames)))
          case Success(bytes) => Success(Some(bytes))
          case Failure(e) => Failure(e)
      ensures event == EnterPressed && !old(isRecording) ==> audio == Success(None) && unchanged(this)
    {
      if event == Interrupted {
        isRecording := false;
        if recordingStream != NoStream {
          // stop_stream() and close(); the field keeps the closed stream
          recordingStream := Closed;
        }
        return Success(None);
      }
      audio := StopRecording();
    }

    /** `cleanup`: stop a recording in progress, then terminate PyAudio. An
        error raised by the stop escapes before the termination. */
    method Cleanup() returns (outcome: Outcome<AudioError>)
      requires ValidConfig(config)
      modifies this
      ensures !isRecording
      ensures !old(isRecording) ==>
        outcome == Pass && terminated && recordingFrames == old(recordingFrames) && recordingStream == old(recordingStream)
      ensures old(isRecording) ==> recordingFrames == [] && recordingStream == NoStream
      ensures outcome == Pass ==> terminated
      ensures outcome.Fail? ==> old(isRecording) && outcome.error == WavTooLarge && terminated == old(terminated)
      ensures outcome.Fail? <==>
        old(isRecording) && old(recordingFrames) != [] && !FitsInWav(|Flatten(old(recordingFrames))|)
    {
      if isRecording {
        var stopped := StopRecording();
        if stopped.Failure? {
          return Fail(stopped.error);
        }
      }
      terminated := true;
      outcome := Pass;
    }
  }
}
