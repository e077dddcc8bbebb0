# School robot assistant: recording and conversation core

This project models two parts of the voice assistant.

The first is the microphone recorder. It comes in two backends:

- `modules/stt.py` uses PyAudio. `record_audio` pulls chunks from a blocking stream.
- `modules/stt_sounddevice.py` uses sounddevice. A stream callback appends blocks to a list, and `record_audio` polls that list once per block period.

Both backends run the same silence detector:

- A frame is loud when its mean absolute sample value is above a threshold.
- Recording stops once speech has started and more than `silence_duration * rate / chunk` quiet chunks have followed it.
- Otherwise recording stops at a chunk cap derived from `max_duration`.

Both backends also offer manual recording: `start_recording`, the stream callback, `stop_recording`, the cancel path of `manual_listen_and_transcribe`, and `cleanup`. Either way, the captured audio is packaged into a canonical 44-byte-header PCM WAV file by `_frames_to_wav`.

The second part is the conversation history of `modules/llm.py`:

- Each request carries the system prompt, the history and the new user message.
- A successful reply appends the exchange to the history, which keeps only the newest `2 * max_history` messages.
- Every failure leaves the history alone and returns a fixed apology.

Each file models one part:

- `pcm.dfy`: bytes, int16 samples and their little-endian encoding.
- `wav.dfy`: the WAV writer and a reader for it.
- `detector.dfy`: the detector and both recording loops, as functions of the loudness of what the loops read.
- `audio.dfy`: the shared configuration, chunk counts and `_frames_to_wav`.
- `stt.dfy` and `stt_sounddevice.dfy`: one recorder class per backend, with methods over the mutable recording state.
- `llm.dfy`: the `LLMProcessor` class.

Devices are given as data:

- The PyAudio device is the sequence of chunks it would deliver. A read past its end is a device failure.
- The sounddevice device is the blocks its callback receives, together with how many had arrived at each polling tick.
- The HTTP request is a function from the message list sent to its outcome.

Behaviour of the code that the model keeps, though a reader might expect otherwise:

- `start_recording` while already recording is a no-op, not an error.
- If the device cannot be opened, `start_recording` leaves `is_recording` set instead of returning to idle.
- Cancelling a manual recording keeps the buffered frames. It also leaves the closed stream object in `recording_stream`.
- The sounddevice `record_audio` returns a WAV with an empty data chunk when nothing was captured. `stop_recording` returns `None` for an empty buffer.
- The sounddevice constructor never assigns `recording_stream`. So if the first `start_recording` sets the flag and then fails to create the stream, a later `stop_recording`, cancel or `cleanup` raises `AttributeError` once it has cleared the flag.

## Model

| member | source | states |
|---|---|---|
| Pcm.SamplesRoundTrip | modules/stt_sounddevice.py:120 | decoding the little-endian byte image of int16 samples gives the samples back |
| Pcm.BytesRoundTrip | modules/stt.py:86 | reading an even-length byte chunk as int16 samples and writing them back gives the same bytes |
| Pcm.FlattenPrefixLength | modules/stt.py:106 | joining the frames is joining a prefix and then the rest; the prefix never gives more bytes |
| Pcm.SamplesToBytesFlatten | modules/stt_sounddevice.py:109-110 | the bytes of the concatenated frames are the frames' bytes joined in order, so both backends package the same payload |
| Pcm.LE32Decodes | modules/stt.py:113-117 | a 32-bit little-endian field reads back as the value written |
| Wav.WriteWav | modules/stt.py:109-120 | the buffer written is the canonical file: RIFF header, 16-byte `fmt ` chunk, data header, payload |
| Wav.WavRoundTrip | modules/stt.py:113-117 | reading a written file gives the channel count, the rate, a sample width of two bytes and exactly the payload |
| Wav.RiffFields | modules/stt.py:113-117 | the file opens with "RIFF", the length of everything after the first eight bytes, and "WAVE" |
| Wav.FmtFields | modules/stt.py:113-114 | the `fmt ` chunk has size 16, PCM format tag 1 and the recorder's channel count at their offsets |
| Wav.RateFields | modules/stt.py:115-116 | the rate, byte rate (channels × rate × 2), block alignment (channels × 2) and 16 bits per sample sit at their offsets |
| Wav.DataFields | modules/stt.py:117 | the `data` tag and the payload length follow the `fmt ` chunk |
| Wav.WavSizesDeclared | modules/stt.py:113-117 | the RIFF length counts every byte after the first eight, and the data length is the payload size |
| Wav.SamplesRoundTripThroughWav | modules/stt_sounddevice.py:112-123 | a file written from n samples reads back as those n samples |
| Audio.ChunkCount | modules/stt.py:74-76 | the count is the largest number of whole chunks that fit in the duration |
| Audio.DefaultChunkCounts | modules/stt_sounddevice.py:62-63 | at 16 kHz with 1024-sample chunks, 2 s of silence is 31 chunks and 30 s of recording is 468 |
| Audio.FramesToWav | modules/stt.py:109-120 | succeeds exactly when the payload fits a 32-bit RIFF length; a success reads back as the recorder's channels, rate, width 2 and the payload |
| Detector.IsLoud | modules/stt.py:86-90 | (corrected) a frame is loud when its mean magnitude exceeds the threshold; an empty frame is never loud, and below a negative threshold every non-empty frame is |
| Detector.IsLoudAsWritten | modules/stt.py:86-87 | (as written) the loudness test uses numpy's wrapping int16 `abs` |
| Detector.FullScaleNegativeFrameAsWritten | modules/stt.py:86-90 | a frame of -32768 samples is judged quiet as written at threshold 500 and loud by the corrected test |
| Detector.AsWrittenAgreesWithoutMinimum | modules/stt_sounddevice.py:88-90 | the written and corrected tests agree on every frame without -32768 |
| Detector.EverySampleAboveThresholdIsLoud | modules/stt.py:87-90 | with the corrected test, a non-empty frame whose every sample is louder than the threshold is loud |
| Detector.Update | modules/stt.py:89-94 | one evaluated chunk (also modules/stt_sounddevice.py:90-94): speech once started stays started, the quiet count grows by at most one, and it stays 0 until speech starts |
| Detector.ShouldStop | modules/stt.py:97 | the stop rule: speech has started and more than `threshold` quiet chunks have followed |
| Detector.AfterQuiet | modules/stt.py:90-94 | quiet frames add one quiet chunk each after speech has started, and change nothing before it |
| Detector.AfterLastLoud | modules/stt.py:90-94 | after the last loud frame, the quiet count is the number of frames that followed it |
| Detector.StartedIffSomeFrameLoud | modules/stt.py:90-92 | speech has started exactly when some frame read so far was loud |
| Detector.AfterConcat | modules/stt.py:81-94 | evaluating frames in two parts is evaluating them in one run |
| Detector.PullRun | modules/stt.py:81-99 | the pull loop never reads more chunks than the device has or than its cap |
| Detector.PullRunBounds | modules/stt.py:81-99 | a silence stop is within the cap; reaching the cap reads exactly the cap; a device failure happens only when the device runs out before the cap |
| Detector.PullRunStopsAtFirstStop | modules/stt.py:97-99 | the loop stops on the first chunk after which the stop rule holds, and not before |
| Detector.PullRunAfterPrefix | modules/stt.py:81-99 | after a prefix that did not stop it, the loop goes on from the state that prefix reached |
| Detector.QuietCountdown | modules/stt.py:93-99 | after speech, threshold + 1 - count quiet chunks stop the loop |
| Detector.StopsAfterTrailingSilence | modules/stt.py:81-99 | if no stop came before loud chunk k (counting from 0) and the next threshold + 1 chunks are quiet, recording stops by silence after reading k + threshold + 2 chunks, the last being chunk k + threshold + 1 |
| Detector.SingleUtteranceStop | modules/stt.py:81-99 | one loud chunk k (counting from 0) among quiet ones stops recording by silence after k + threshold + 2 chunks have been read |
| Detector.AllQuietRunsToCap | modules/stt.py:81-99 | silence alone never stops recording: it runs to the cap, or fails if the device runs out first |
| Detector.AllLoudRunsToCap | modules/stt.py:81-99 | continuous speech never stops recording early |
| Detector.PollRun | modules/stt_sounddevice.py:81-102 | the polling loop: a tick without any block changes nothing; otherwise the latest block updates the state and the loop stops when the rule fires, for at most `total_chunks` ticks |
| Detector.PollRunBounds | modules/stt_sounddevice.py:81-102 | the polling loop never fails, and runs all its ticks unless the silence rule stops it |
| Detector.EmptyTicksOnlyDelay | modules/stt_sounddevice.py:83-86 | ticks before the first block arrives change only the tick count |
| Detector.QuietTicksStop | modules/stt_sounddevice.py:93-102 | after speech, threshold + 1 - count quiet ticks stop the polling loop |
| Detector.PollAllQuietRunsToCap | modules/stt_sounddevice.py:81-102 | without a loud observation the polling loop runs every tick |
| Detector.PollMatchesPull | modules/stt_sounddevice.py:81-102 | when every tick sees a fresh block, the polling loop ends exactly as the pull loop does |
| Stt.WhisperStt.constructor | modules/stt.py:20-50 | the configuration is stored as given; the recorder starts idle with an empty buffer, no stream and PyAudio not terminated |
| Stt.ChunkLouds | modules/stt.py:86-87 | one loudness verdict per chunk read |
| Stt.ChunkLoudsMatchAsWritten | modules/stt.py:86-90 | on chunks without a -32768 sample, every verdict is the one the wrapping numpy `abs` gives |
| Stt.ReadChunks | modules/stt.py:81-99 | the chunks the loop keeps are exactly the prefix the detector run consumes (stop on the chunk where the silence rule fires, or at the cap); running out of chunks first is a failure |
| Stt.WhisperStt.RecordAudio | modules/stt.py:52-107 | the result is the WAV of exactly the chunks the loop read, up to the stop the detector gives; a device failure propagates; the stream is closed on every exit |
| Stt.WhisperStt.StartRecording | modules/stt.py:166-186 | a no-op while recording; otherwise the flag is set and the buffer emptied; the stream runs, or a failed open escapes with the flag set |
| Stt.WhisperStt.RecordingCallback | modules/stt.py:188-193 | buffers the chunk and continues exactly while recording; otherwise completes |
| Stt.WhisperStt.StopRecording | modules/stt.py:195-223 | `None` when not recording or nothing was buffered; otherwise the buffer is emptied and returned as the WAV of its chunks in order |
| Stt.WhisperStt.ManualListenEnd | modules/stt.py:236-251 | Enter stops the recording and yields its audio; an interrupt clears the flag, closes the stream in place, keeps the buffer and yields nothing |
| Stt.WhisperStt.Cleanup | modules/stt.py:253-257 | a recording in progress is stopped; the stop fails exactly when a recording with buffered audio is too large for a WAV, and PyAudio is terminated in every other case |
| SttSoundDevice.TickObservations | modules/stt_sounddevice.py:86-88 | each tick sees nothing before any block arrives, else the loudness of the latest block |
| SttSoundDevice.TickObservationsMatchAsWritten | modules/stt_sounddevice.py:86-90 | on blocks without a -32768 sample, every tick's verdict is the one the wrapping numpy `abs` gives |
| SttSoundDevice.WhisperStt.constructor | modules/stt_sounddevice.py:20-45 | blocks are 1024 samples; the stream field is left unassigned |
| SttSoundDevice.PollTicks | modules/stt_sounddevice.py:83-102 | the stop callback is invoked exactly when the detector run over the ticks' observations of the latest block ends by silence |
| SttSoundDevice.WhisperStt.RecordAudio | modules/stt_sounddevice.py:47-110 | the stop callback runs exactly when the silence rule fires; the result is the WAV of every captured block in order, with empty data if none arrived |
| SttSoundDevice.WhisperStt.StartRecording | modules/stt_sounddevice.py:169-191 | a no-op while recording; otherwise the flag is set, the buffer emptied and the stream started, or a failed open escapes with the flag set |
| SttSoundDevice.WhisperStt.RecordingCallback | modules/stt_sounddevice.py:179-182 | appends the block exactly while recording |
| SttSoundDevice.WhisperStt.StopRecording | modules/stt_sounddevice.py:193-220 | `None` when not recording or nothing was buffered; otherwise the WAV of the blocks joined in order; an unassigned stream field raises after the flag is cleared |
| SttSoundDevice.WhisperStt.ManualListenEnd | modules/stt_sounddevice.py:237-256 | an interrupt yields nothing and never runs the stop callback; Enter runs it exactly when stopping did not raise; with an unassigned stream field, Enter raises `AttributeError`, skips the callback and leaves the buffer and the field alone |
| SttSoundDevice.WhisperStt.Cleanup | modules/stt_sounddevice.py:258-261 | a recording in progress is stopped and an error from the stop escapes: `AttributeError` on an unassigned stream field, with the buffer and the field untouched; otherwise the stop fails exactly when the buffered audio is too large for a WAV |
| Llm.ErrorReply | modules/llm.py:112-127 | the apology for a failed request: the timeout text, the 401 and 429 texts, the text for any other HTTP status, and the text for any other exception |
| Llm.ErrorReplyIdentifiesFailure | modules/llm.py:110-127 | each failure kind has its own apology, and the apology identifies the failure: timeout, 401, 429, other HTTP status, other exception |
| Llm.Trim | modules/llm.py:105-107 | the result is the newest `bound` messages, or all of them when there are fewer |
| Llm.SuffixKeepsExchanges | modules/llm.py:106-107 | dropping an even number of messages from the front of whole exchanges leaves whole exchanges |
| Llm.TrimKeepsExchanges | modules/llm.py:105-107 | trimming whole user/assistant exchanges to an even bound keeps whole exchanges and the newest one |
| Llm.AppendExchange | modules/llm.py:100-102 | appending a user message and its reply keeps the history in whole exchanges |
| Llm.DecimalRoundTrip | modules/llm.py:144-145 | the decimal text of a count reads back as the count |
| Llm.NatToDecimal | modules/llm.py:145 | the rendering of a count is all digits with no leading zero |
| Llm.CanonicalDecimalUnique | modules/llm.py:145 | a number has one rendering: every digit string without a leading zero is the rendering of its own value |
| Llm.SuccessEndsWithNewExchange | modules/llm.py:100-107 | after a success the history ends with the new exchange; it grows by it below 20 messages and drops the oldest exchange at 20 |
| Llm.LlmProcessor.constructor | modules/llm.py:33-46 | a missing system prompt becomes the default school-robot prompt; the history starts empty; at most 10 exchanges are kept |
| Llm.LlmProcessor.GenerateResponse | modules/llm.py:48-127 | the request is the system prompt, the history and the user message, in order; success returns the reply and keeps the newest 20 messages with the new exchange; failure returns the apology and leaves the history unchanged |
| Llm.LlmProcessor.AddExchange | modules/llm.py:100-107 | appending the user message and the reply and keeping the newest `2 * max_history` messages leaves the history whole exchanges and equal to the trimmed extension |
| Llm.LlmProcessor.ClearHistory | modules/llm.py:129-132 | the history becomes empty |
| Llm.LlmProcessor.SetSystemPrompt | modules/llm.py:134-137 | later requests open with the new prompt |
| Llm.LlmProcessor.HistorySummary | modules/llm.py:139-145 | the fixed text exactly when the history is empty; otherwise the prefix, a digit string without leading zero whose value is `len // 2`, and the suffix (with `Llm.CanonicalDecimalUnique`, exactly the f-string's text) |

## Left out

- `transcribe`, `listen_and_transcribe` and `list_devices`: the Whisper request is a call into a remote service, and listing devices is I/O.
- The text-to-speech module, the console entry point and the server: these are not part of this model.
- Console output, `sd.sleep` timing and the real-time interleaving between the audio callback thread and the polling loop. A device is a fixed sequence of blocks, plus how many had arrived at each tick.
- The HTTP and JSON layer of `generate_response`: headers, model name, `max_tokens`, `temperature` and the 30-second timeout. The request is a function from the messages sent to its outcome, and a malformed response is one more "other exception". A reply whose content is JSON `null` is treated as a string.
- Stt.WhisperStt.RecordAudio: a failure to open the stream is not a separate case. It behaves like a read failure before the first chunk, except that there is nothing to close.
- Stt.ChunkLouds: judges loudness with the corrected test `Detector.IsLoud`, not numpy's wrapping `abs` (see Findings). The two differ only on chunks holding -32768, and `Stt.ChunkLoudsMatchAsWritten` proves they agree everywhere else.
- Stt.ReadChunks: its stop point is stated through `Stt.ChunkLouds`, so it follows the corrected test on chunks holding -32768.
- Stt.WhisperStt.RecordAudio: its stop point is stated through `Stt.ChunkLouds`. So on chunks holding -32768 it follows the corrected test, and the source's loop may stop earlier or later there.
- SttSoundDevice.TickObservations: judges the latest block with the corrected test `Detector.IsLoud`, not numpy's wrapping `abs`. `SttSoundDevice.TickObservationsMatchAsWritten` proves they agree on blocks without -32768.
- SttSoundDevice.PollTicks: whether `on_stop_callback` runs is stated through `SttSoundDevice.TickObservations`, so it follows the corrected test on blocks holding -32768.
- SttSoundDevice.WhisperStt.RecordAudio: whether `on_stop_callback` runs is stated through `SttSoundDevice.TickObservations`, so it follows the corrected test on blocks holding -32768. A failure of `sd.InputStream` to open is not modelled: the result can only be a WAV or `WavTooLarge`, while the source lets the device exception escape.
- Detector.IsLoud and Detector.IsLoudAsWritten: the float mean `abs(x).mean() > threshold` is compared as `sum > threshold * n`, without division. This rewriting is exact for every integer threshold, because the sum of int16 magnitudes is well below 2^53 for any real chunk. An empty frame is never loud, as numpy's NaN mean compares false.
- Audio.ChunkCount: durations are whole milliseconds. `int(seconds * (rate / chunk))` on floats may round differently from this exact floor when the product lands within a rounding error of an integer.
- Audio.ValidConfig: the constructors require a channel count and rate that a WAV header can hold. Otherwise `wave` raises while packaging, which the model does not cover. `Stt.WhisperStt.constructor` also requires `chunk_size > 0`: the source accepts 0, and only `record_audio` then fails, dividing by it (modules/stt.py:74). The model does not cover that division error.
- Closing a stream that is already closed, such as a second cancel, is treated as harmless. The libraries' behaviour there is not part of this model.
- Llm.LlmProcessor.Valid: `max_history` is fixed at 10, as the constructor sets it. The history has no setter other than `clear_history`.

## Findings

| source | as written | input that shows it | evidently intended | confidence | as-written member | corrected member |
|---|---|---|---|---|---|---|
| modules/stt.py:86-87 (also modules/stt_sounddevice.py:88) | `np.abs` on int16 data maps -32768 to -32768, so a full-scale negative sample counts as -32768 in the mean | frame `[-32768, -32768]` at threshold 500: mean of `abs` is -32768, so the frame is judged silent | the mean magnitude is 32768, so the frame is loud | not executed | Detector.IsLoudAsWritten, Detector.FullScaleNegativeFrameAsWritten | Detector.IsLoud, Detector.EverySampleAboveThresholdIsLoud |
