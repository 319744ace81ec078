# audioin.js core in Dafny

A model of the sequential core of `audioin.js`, a browser microphone-capture
helper, together with proofs about it. The model has three parts.

- **`Resampling`** (`resampling.dfy`) is the streaming linear-interpolation
  downsampler `Resampler.downsample`. Its only state between calls is the phase
  `dt` and the last sample `input_nm1`. Rates are positive integers (Hz). Times
  and sample values are exact `real`s. The loop is modelled twice: once as the
  recursive function `Scan` (one step per input sample) and once as the method
  `DownsampleLoop`, which mirrors the source loop and is proved equal to the
  function. The output buffer is a zero-initialised `Float32Array` of length
  `floor(L * out / in)` that drops writes past its end. It is modelled as
  `Fit`: the computed values, truncated or padded with `0.0`.
- **`Int16Codec`** (`int16_codec.dfy`) is `audioIn_toInt16` with its
  `toInt16LE` / `toInt16BE` wrappers. Each sample is clamped to `[-1, 1]`,
  scaled by 32768 (negatives) or 32767 (the rest), and converted as
  ECMAScript's `ToInt16` does: truncate toward zero, then reduce modulo 2^16.
  It is then written as two bytes in the requested order. This module also
  holds the sum of squares that `power` computes before its square root.
- **`AudioInput`** (`audio_in.dfy`) is the `AudioIn` control logic as pure
  transitions over a small record:
  - which observers are registered;
  - `sampleRate`, which may be unset;
  - whether a stream is held;
  - the resampler, once `init` has created it.

  Each frame returns the list of events the observers receive, either
  `Audio(channel, buffer)` or `Error(message)`. As in the source, one resampler
  is shared by every channel of a frame and by every session.

Four behaviours of the source are modelled as written:

- **One resampler for all channels.** Channel `k` is downsampled from the state
  channel `k - 1` left (`DownsamplingDispatch`). The phase and carried sample of
  one channel therefore leak into the next. Separate phases would need one
  resampler per channel, and the source keeps only one. The leak is latent in
  the source as wired: `onStreamOk` creates its script processor with one input
  channel (`createScriptProcessor(this.bufferSize, 1, 1)`, audioin.js:193), so
  every frame it delivers has a single channel. `onAudioProcess` itself loops
  over any number of channels, and the model keeps that generality.
- **A refused microphone reports nothing.** `onStreamError` calls the null
  `errMsg` and throws before `onError` is reached, so no error event is emitted.
- **Equal rates are not an identity for `downsample`.** From a fresh state, a
  call returns every sample of the chunk but the last, in place, and leaves the
  last slot at its initial `0.0` (`EqualRatesFromFresh`). So `[a, b]` becomes
  `[a, 0.0]`, and a one-sample chunk becomes `[0.0]` (`PadsUnwrittenSlot`).
  That call leaves the phase one period back. Every later call returns the
  previous chunk's last sample followed by all but the last sample of its own
  chunk (`EqualRatesLag`): after `[a, b]`, a call on `[c, d]` returns `[b, c]`
  (`EqualRatesLagAfterFirstCall`). `onAudioProcess` never calls `downsample`
  with equal rates (audioin.js:148, 165-172); it passes such frames through
  unchanged.
- **The buffer can drop a computed value.** The loop may compute one value more
  than `floor(L * out / in)`, and that value is never delivered
  (`DropsComputedValue`). Continuity is therefore proved for the computed
  values, before truncation to the buffer.

## Model

| member | source | states |
|---|---|---|
| Resampling.Interpolate | audioin.js:44-47 | When the output time is inside the window `[tnm1, tn)` of width `in_period`, the interpolated value lies between the carried sample and the current sample. |
| Resampling.Step | audioin.js:44-53 | One iteration computes a value exactly when the output time is in the window, and nothing otherwise. It then carries the current sample and keeps the window width. With a window one input period wide, the computed value lies between the two samples. |
| Resampling.Scan | audioin.js:42-54 | The loop computes at most one value per input sample. After a non-empty chunk the sample it carries is the chunk's last sample. The window `[tnm1, tn)` keeps its width. |
| Resampling.Downsample | audioin.js:31-61 | The buffer has length exactly `floor(L * out / in)`. Slot `k` holds the `k`-th computed value if there is one, and `0.0` otherwise. At most `L` values are computed. The carried `input_nm1` is the last input sample. |
| Resampling.DownsampleLoop | audioin.js:31-60 | The source loop, with its drop-past-the-end buffer writes, returns the same state and buffer as `Downsample`. For `out <= in`, an admissible phase `dt` stays admissible. |
| Resampling.WriteFit | audioin.js:38-49 | Writing further values from slot `|xs|` on, into the buffer that already holds `xs`, gives the buffer that holds `xs + ys`. Writes past the end are dropped. |
| Resampling.RestScans | audioin.js:42-58 | From any loop state, the remaining iterations and the final save compute the values `Scan` computes on the rest of the chunk. They write those values from slot `j` on and store the phase and carried sample `Scan` ends with. |
| Resampling.LoopAgrees | audioin.js:33-58 | The loop, started from the variables `downsample` initialises on a zero-filled buffer, produces exactly `Downsample`'s state and buffer. |
| Resampling.Fit | audioin.js:38-39 | A zero-initialised buffer of length `n` that receives the values in order: slot `k` is value `k` when one exists, and `0.0` otherwise. |
| Resampling.FitSnoc | audioin.js:47-49 | Writing the next value fills the next slot, or is dropped once the buffer is full. |
| Resampling.ScanSplit | audioin.js:42-54 | Running the loop over `a + b` equals running it over `a`, then over `b` from where `a` stopped. |
| Resampling.ScanShift | audioin.js:35-36 | Moving the time origin changes no computed value and moves the final cursor by the same amount. This is why re-basing `t` on `dt` at each call is sound. |
| Resampling.Continuity | audioin.js:56-58 | For a fixed rate pair, one call on `a + b` computes the same values, in order, as a call on `a` followed by a call on `b` on the same resampler. Both routes end in the same `dt` and `input_nm1`. |
| Resampling.ScanKeepsPhase | audioin.js:42-54 | With `out <= in`, every iteration keeps the window width and `tnm1 <= t < tn + out_period`. |
| Resampling.StepKeepsPhase | audioin.js:44-53 | With `out <= in`, one iteration keeps the window width and `tnm1 <= t < tn + out_period`. |
| Resampling.DownsampleKeepsPhase | audioin.js:63-64 | For a fixed pair with `out <= in`, a fresh resampler has `dt` in `[-in_period, out_period)`, and every call keeps `dt` in that range. |
| Resampling.InterpolateConvex | audioin.js:44-47 | A computed value is `prev + w * (x - prev)` with `w = (t - tnm1) / in_period` in `[0, 1)`. So it lies between the two consecutive samples it comes from. |
| Resampling.ScanInRange | audioin.js:44-53 | When the carried sample and every input sample lie in `[lo, hi]`, so does every computed value. |
| Resampling.DownsampleInRange | audioin.js:38-58 | When the chunk and the carried sample lie in `[lo, hi]` (for audio, `[-1, 1]`), so does every computed value. Every buffer slot does too when the range also contains `0.0`, the value of an unwritten slot. |
| Resampling.ScanBrackets | audioin.js:42-54 | For any samples, every value the loop computes lies between sample `i` of the chunk and the sample before it, for some `i`. Before sample 0, that earlier sample is the carried one. |
| Resampling.ComputedBrackets | audioin.js:44-53 | For any chunk and resampler state, every value one call computes lies between `input[i]` and its predecessor, for some `i`. The predecessor of `input[0]` is the carried `input_nm1`. |
| Resampling.DropsComputedValue | audioin.js:38-49 | From 3 Hz to 1 Hz, a fresh resampler computes one value from two samples, but the buffer has no slot for it. |
| Resampling.PadsUnwrittenSlot | audioin.js:38-49 | At equal rates, a fresh resampler computes nothing from one sample, and the buffer is `[0.0]`. |
| Resampling.ScanEqualRates | audioin.js:42-54 | At equal periods, a loop whose output time sits at the start of its window computes the carried sample followed by every sample of the chunk but the last. It keeps its output time at the start of the window. |
| Resampling.ScanEqualRatesFromFresh | audioin.js:33-54 | At equal periods from a fresh state, the first sample only opens the window. The loop then computes every sample but the last, and ends one period behind the end of the chunk. |
| Resampling.BufferLengthEqualRates | audioin.js:38-39 | At equal rates the buffer `downsample` allocates is exactly as long as the chunk. |
| Resampling.EqualRatesFromFresh | audioin.js:31-61 | At equal rates, a fresh resampler turns any non-empty chunk into all its samples but the last, in place, followed by `0.0`. It keeps the last sample and a phase one period back. |
| Resampling.EqualRatesLag | audioin.js:31-61 | At equal rates, with the phase one period back and carried sample `x`, any non-empty chunk becomes `x` followed by all its samples but the last. The call keeps that phase and carries the chunk's last sample. |
| Resampling.EqualRatesLagAfterFirstCall | audioin.js:33-58 | At equal rates, a fresh resampler turns `[a, b]` into `[a, 0.0]` and leaves the phase one period back. The next call turns `[c, d]` into `[b, c]`. |
| Int16Codec.Clamp | audioin.js:268 | The result lies in `[-1, 1]`. In-range samples are unchanged. Samples above 1 become 1, and samples below -1 become -1. |
| Int16Codec.Truncate | audioin.js:269 | The result is the integer next to `v` on the side of zero. |
| Int16Codec.Sample16 | audioin.js:268-269 | The value `setInt16` receives for one sample is always a 16-bit integer. |
| Int16Codec.Wrap16 | audioin.js:269 | The result is in `[-32768, 32767]` and congruent to the input modulo 2^16. It equals the input when the input is already a 16-bit value. |
| Int16Codec.Sample16Facts | audioin.js:268-269 | The modular reduction never changes the value. `x >= 1` gives 32767, `x <= -1` gives -32768, and 0 gives 0. The sign is kept. |
| Int16Codec.Sample16Truncates | audioin.js:269 | On `[0, 1]` the value is `floor(32767 * x)`. On `[-1, 0)` it is `ceil(32768 * x)`. |
| Int16Codec.Sample16Monotone | audioin.js:268-269 | A larger sample never encodes to a smaller integer. |
| Int16Codec.ToInt16 | audioin.js:259-272 | The output has `2 * L` bytes. The bytes at offset `2 * i` encode the 16-bit value of sample `i` in the chosen order. |
| Int16Codec.ToInt16RoundTrip | audioin.js:259-272 | Decoding the output in the order it was written gives back the 16-bit value of every sample, in order. |
| Int16Codec.ByteOrders | audioin.js:76-77 | `toInt16LE` and `toInt16BE` hold the same values with the two bytes of each value swapped. The little-endian output puts the low byte first. |
| Int16Codec.SumOfSquares | audioin.js:278-283 | The accumulated power is never negative. |
| AudioInput.Notify | audioin.js:105-111 | A registered observer receives the event exactly once. A null observer receives nothing. |
| AudioInput.Init | audioin.js:113-136 | `init` creates the resampler exactly once. Afterwards it changes nothing. |
| AudioInput.Start | audioin.js:210-229 | `start` while a stream is held changes nothing, not even `sampleRate`, and requests nothing. Otherwise it requests access and sets `sampleRate` when a rate is given, keeping the old one otherwise. It never replaces an existing resampler. |
| AudioInput.OnStreamOk | audioin.js:176-178 | A granted stream becomes held. The rate and the resampler are untouched. |
| AudioInput.Stop | audioin.js:231-256 | `stop` releases the stream. It keeps `sampleRate` and the resampler with its phase. With no stream held it changes nothing once `init` has run. |
| AudioInput.StartStopIdempotent | audioin.js:214-239 | `stop` is idempotent. `start` on a running object leaves it unchanged. |
| AudioInput.ResamplerOutlivesSessions | audioin.js:113-136 | After `stop` and a new `start`, the resampler and its phase are the ones the previous session left. |
| AudioInput.TransitionsKeepValid | audioin.js:210-229 | Every transition keeps the invariant that a held stream implies an initialised object. |
| AudioInput.OnAudioProcess | audioin.js:138-174 | An unset `sampleRate` is bound to the frame's rate. Equal rates pass every channel through unchanged, in channel order. A higher target emits exactly one upsampling error and no audio, and leaves the resampler alone. A lower target emits one buffer per channel. A null observer receives nothing. |
| AudioInput.DownsamplingDispatch | audioin.js:148-158 | When downsampling, channel `k` receives, under number `k`, the buffer the one shared resampler computes from the state channel `k - 1` left. That buffer has length `floor(L * target / rate)`. The object keeps the state the last channel left. |
| AudioInput.DownsampleChannels | audioin.js:151-158 | The channel loop emits one audio event per channel when `onAudio` is registered, and none when it is null. |
| AudioInput.DownsampleChannelsShared | audioin.js:151-158 | The channel loop calls the audio observer once per channel, in order. The shared resampler ends in the state the last channel left. |
| AudioInput.DownsampleChannelsState | audioin.js:151-158 | After the channel loop, the resampler is in the state the last channel left. The observer count is the channel count, or zero when the observer is null. |
| AudioInput.DownsampleChannelsEvent | audioin.js:153-157 | The event for channel `k` carries the buffer computed from the state channel `k - 1` left. |
| AudioInput.StateBeforeTail | audioin.js:151-158 | The state reaching channel `k` equals the state reaching channel `k - 1` of the remaining channels, once channel 0 has run. |
| AudioInput.FirstFrameBindsRate | audioin.js:142-164 | With no requested rate, the first frame binds `sampleRate` to its own rate. Its channels are passed through, channel `k` as `Audio(k, channel k)`, or nothing when `onAudio` is null. A later frame at the same rate is passed through the same way. A later frame at a lower rate emits the upsampling error when `onError` is registered, and nothing otherwise. A later frame at a higher rate has every channel downsampled by the shared resampler. |

## Left out

- Browser plumbing is not modelled:
  - the vendor-prefixed `AudioContext` / `getUserMedia` probing (audioin.js:117-131);
  - the audio-graph wiring in `onStreamOk` (audioin.js:190-199);
  - the track and stream shutdown in `stop` (audioin.js:241-251);
  - every `console.log` call.

  `onStreamOk` is modelled only as the stream becoming held. The `getUserMedia`
  request is modelled only as the `accessRequested` flag of `Start`.
- `onStreamError` (audioin.js:204-208) is not modelled. It calls `this.errMsg`, which is `null`, so it throws before `onError` is reached. It has no effect on the state and emits no event.
- `onStopped` is never called by the source, so it has no counterpart.
- IEEE-754 effects are not modelled: `Float32Array` rounding of stored values, float drift in the window test (audioin.js:44), the float `floor` of the buffer size (audioin.js:39), and NaN samples in the Int16 conversion.
- `power` (audioin.js:276-286) is modelled only up to its sum of squares. The square root and the division by the length, which is 0/0 for an empty buffer, are float operations that exact `real`s cannot express.
- Int16Codec.SumOfSquares: states only that the sum is non-negative. It does not state that the sum is zero exactly for a silent buffer.
- The platform-endian reinterpretation `new Int16Array(buffer)` (audioin.js:272) is not modelled. The model returns the byte sequence that `setInt16` writes.
- Resampling.Downsample: requires a non-empty chunk. On an empty chunk the source stores `input[-1]`, which is `undefined`, as the carried sample, and that later yields NaN, which is not modelled.
- Rates are positive integers. Zero, negative or fractional rates are not modelled.
- Rate changes between calls are not covered. The phase bounds and continuity are proved only for a fixed rate pair.
- AudioInput.OnAudioProcess: requires, in the downsampling branch only, that the resampler exists and that every channel is non-empty. Frames arrive only through the processor that `onStreamOk` wires after `init`. That processor has one input channel (audioin.js:193), and each frame carries `bufferSize` (2048) samples per channel.
- `audioin_test.js` is a jQuery demo page with no logic of its own.
