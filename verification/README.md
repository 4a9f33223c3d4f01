# intersect-lv2: the streaming STFT engine

intersect-lv2 is an LV2 audio plugin. It takes a stereo signal and splits it into
what the two channels share (the "center") and what is specific to each channel.
It does this with a short-time Fourier transform.

- The stream is cut into overlapping frames of `fft_size` samples.
- Consecutive frames start `fft_jump_size` samples apart (the hop). The hop is
  `fft_size / overlap_factor`.
- For every full hop:
  - Both channels' frames go through a forward real FFT.
  - In every frequency bin, the quieter of the two bins is kept. The left bin is
    kept when its energy `re^2 + im^2` is strictly smaller; otherwise the right
    bin is kept.
  - The result goes through an inverse FFT and is overlap-added into a center
    accumulator.
- The output lags the input by exactly one frame, so the plugin reports
  `fft_size` as its latency.
  - The center estimate is the accumulator scaled by `1 / (fft_size * overlap_factor)`.
  - Each residual is the raw input of one frame ago minus that center estimate.

There are three effects:

- Intersect outputs the center only.
- SymmetricDifference outputs the two residuals.
- Upmix outputs both residuals and the center.

There are three builds:

- A self-contained C build: `src/intersect.c` holds its own activation, which
  rounds the hints half up, its own `run` and its own descriptors.
- A split C build: `src/main.c` holds the descriptors and `src/init.c` the
  activation, which truncates the hints. Its `run` functions
  (`intersect_run`, `symmetric_difference_run`, `upmix_run`) are declared in
  `src/intersect.h`; the file that defines them is not part of this model.
- A C++ build vectorised with Highway: `src/intersect.cc` and `src/init.cc`.

The C++ build pads its buffers to whole vectors. It writes the center estimate
first into the port chosen by `store_center`. It also selects bins lane-wise on
the interleaved `(re, im)` float layout.

The Dafny project models the engine at two levels.

- **The specification, on values.** This level covers:
  - parameter derivation (`Params`);
  - bins and selection (`Spectral`);
  - lane padding (`Lanes`);
  - the engine as a state machine (`Stft`): its state, what one sub-block does
    and emits, and what one hop cycle does. `Process` is a whole `run` call.

  Lemmas about it (`Streaming`, `Output`) prove several things:
  - How many hop cycles a call runs and where it leaves the hop position.
  - Independence from how the host cuts the stream into calls.
  - The complementarity of the outputs at the reported latency: residual plus
    center equals the raw input `fft_size` samples earlier.
  - What ends up on each output port.
- **The plugin object, imperatively.** `Plugin.Engine` is a class with the
  plugin's buffers as arrays. It has:
  - the three activation variants;
  - the hop cycle, split into its steps;
  - both builds' output stages;
  - `run` itself.

  Each method is proved against the specification. Its `ensures` states the new
  array contents (`Snapshot()`) and the output ports in terms of `Stft` functions
  of the old state. `Buffers` holds the C library primitives (`memmove`, `memset`,
  `memcpy`, the `+=` loops) as array methods with exact contracts.

The FFT library is a parameter: an `Fft` value holding a forward and an inverse
transform. The model only knows the lengths these transforms produce. Samples and
hints are real numbers.

On equal energies the code keeps the right bin: the left bin is kept only when its
energy is strictly smaller (src/intersect.c:243, src/intersect.cc:103 and 120).

## Model

| member | source | states |
|---|---|---|
| Params.RoundHint | src/intersect.c:98 | the self-contained C build rounds a hint half up: the result n satisfies n <= hint + 0.5 < n + 1 |
| Params.TruncHint | src/init.c:41 | the split builds convert a hint by truncation: n <= hint < n + 1 |
| Params.FftSize | src/intersect.c:98-101 | the frame size is even, at least 2, at least the requested size, equal to it when it is already even and at least 2, and at most one more than it (2 for requests below 1) |
| Params.OverlapClamp | src/init.cc:83 | `std::clamp` of the converted overlap hint lies in [1, size] and keeps a hint already in that range |
| Params.OverlapClampsAgree | src/init.cc:83 | on the converted integer hint n, `std::clamp(n, 1, size)` equals `max(1, min(size, n))`; the result lies in [1, size]; an in-range request is kept; a request below 1 gives 1 and one above size gives size (the C builds clamp the float hint instead; Plugin.Engine.ConvertedOverlap ties that to this clamp) |
| Params.JumpSize | src/intersect.c:103 | the hop is between 1 and the frame size, and is the floor quotient: jump * overlap <= size < (jump + 1) * overlap |
| Params.Normalization | src/intersect.c:104 | the normalisation factor is positive and is the exact inverse of fft_size * overlap_factor |
| Params.Derive | src/init.cc:79-87 | the parameters from integer hints satisfy every framing invariant the engine needs; the frame size is FftSize of the hint; the overlap factor is the hint when it lies in [1, size], size above that, and 1 below |
| Params.DeriveExamples | src/intersect.c:98-104 | worked cases: a 7.4 size hint gives an 8-sample frame with overlap 3, hop 2 and factor 1/24; an overlap hint of 1000 on a 256 frame clamps to 256 (hop 1); zero hints give a 2-sample frame with a 2-sample hop |
| Plugin.Engine.ConvertedOverlap | src/init.c:45 | the C clamp on the float hint followed by conversion to an unsigned integer equals the clamp of the truncated hint |
| Lanes.Cover | src/init.cc:42 | a loop storing whole vectors from 0 while i < n ends at or past n and less than one vector past it; for n <= 0 it stores nothing |
| Lanes.CoverVectors | src/init.cc:42 | the covered end is a whole number of vectors |
| Lanes.PadFloats | src/init.cc:35-38 | `pad_floats` returns a multiple of the widest vector, at least the count and less than one vector more |
| Lanes.CoverIsLeast | src/init.cc:42 | a loop storing whole vectors from 0 while i < n covers up to a multiple of the vector width that is at least n and at most every other such multiple: the least one |
| Lanes.CoverWithinPad | src/init.cc:92-99 | because the current vector width divides the widest one, whole-vector stores over n elements stay inside a buffer of `pad_floats(n)` floats |
| Lanes.ZeroFill | src/init.cc:40-45 | `zero_fill` sets every element below the covered end to zero and leaves every other element unchanged |
| Spectral.MagnitudeSquared | src/intersect.c:186-188 | the energy of a bin is never negative |
| Spectral.Winner | src/intersect.c:243 | the kept bin is one of the two, its energy is at most either's, and on equal energies the right bin is kept |
| Spectral.Select | src/intersect.c:240-245 | one kept bin per bin index (which one is stated by Spectral.SelectIsMinimal) |
| Spectral.SelectIsMinimal | src/intersect.c:240-245 | every selected bin comes from the same index of one spectrum, has the lower energy, and is the left bin (when the two differ) exactly when the left energy is strictly smaller |
| Spectral.UnflattenFlatten | src/intersect.cc:111-114 | reading the interleaved float layout back as bins recovers the spectrum |
| Spectral.FlattenUnflatten | src/intersect.cc:111-114 | every even-length float buffer is the interleaved layout of the bins read from it |
| Spectral.FlattenAt | src/intersect.cc:111-114 | bin k sits at floats 2k (real part) and 2k+1 (imaginary part) |
| Spectral.PairwiseEnergyAt | src/intersect.cc:116-119 | squaring every lane and adding adjacent lane pairs gives, in both lanes of a bin, that bin's energy |
| Spectral.LaneSelect | src/intersect.cc:108-123 | the vector selection produces one float per float of the interleaved spectra (which float is stated by Spectral.LaneSelectFromInputs, Spectral.LaneSelectAt and Spectral.LaneSelectAgrees) |
| Spectral.LaneSelectFromInputs | src/intersect.cc:120 | every lane of the vector selection is the same lane of the left or of the right spectrum |
| Spectral.LaneSelectAt | src/intersect.cc:120 | the `Lt`/`IfThenElse` choice in each lane picks the float of the bin the scalar rule keeps |
| Spectral.LaneSelectAgrees | src/intersect.cc:108-123 | the lane-wise selection over the whole interleaved spectrum equals the interleaved scalar selection, so both builds choose the same bins |
| Buffers.MoveLeft | src/intersect.c:254 | `memmove(a, a + j, count)` moves the count elements from j to the front and changes nothing else |
| Buffers.Fill | src/intersect.c:234 | `memset` sets exactly the given range |
| Buffers.Copy | src/intersect.c:222-228 | `memcpy` between distinct buffers writes exactly the given range with the source slice |
| Buffers.AddInto | src/intersect.c:249-251 | the element-wise overlap-add changes only the first count elements, each by the matching source element |
| Buffers.AddIntoLanes | src/intersect.cc:127-131 | the vector overlap-add adds whole vectors up to the covered end, and nothing beyond |
| Buffers.Store | src/intersect.c:237 | a transform's store makes the prefix of its output buffer its result and keeps the rest |
| Buffers.Scale | src/intersect.c:199-201 | the scaling loop writes the scaled source slice at the target offset and nothing else |
| Buffers.Difference | src/intersect.cc:71-78 | the subtraction writes source minus subtrahend at the target offset, correct also when the subtrahend is the target itself at that offset |
| Buffers.MoveIsSlide | src/intersect.c:254 | moving all but the first hop to the front is the window slide |
| Buffers.MoveFillIsShift | src/intersect.c:233-234 | `memmove` then `memset` on the accumulator shift out the oldest hop and shift in zeros |
| Buffers.AddPrefixSums | src/intersect.cc:127-131 | adding over at least the first n elements gives their element-wise sums |
| Stft.Initial | src/intersect.c:106-122 | after activation the state is well formed and positioned at the start of a hop |
| Stft.Slide | src/intersect.c:254 | the window moves left by a hop; the last hop of entries keeps its old values until new input overwrites them |
| Stft.ShiftOut | src/intersect.c:233-234 | the accumulator drops its oldest hop and ends with a hop of zeros |
| Stft.HopCycle | src/intersect.c:232-258 | a hop cycle leaves a well-formed state positioned at the start of the next hop |
| Stft.Ingest | src/intersect.c:222-230 | ingesting a sub-block keeps every buffer's size and advances the hop position by the sub-block length |
| Stft.SubBlock | src/intersect.c:222-258 | after a sub-block the hop position is again strictly inside a hop |
| Stft.BlockSize | src/intersect.c:196 | the sub-block is non-empty, fits both the remaining input and the rest of the hop, and exhausts one of them |
| Stft.EmitAt | src/intersect.c:199-217 | in the value emitted at a position, each channel's residual plus the center is that channel's residual-buffer sample at the hop position |
| Stft.Emit | src/intersect.c:199-217 | one value per sample of the sub-block (the values are stated by Output.EmitColumns) |
| Stft.BusSample | src/intersect.c:203-219 | a port sample becomes its old value, the center or a residual; ports past 2, ports 1 and 2 under Intersect, and port 2 under SymmetricDifference keep their value; unless the effect is Intersect, port 0 gets the left residual and port 1 the right residual |
| Stft.Port | src/intersect.c:203-220 | an output port keeps its length (its contents are stated by Output.PortIsWrite, Output.PortKeeps and Output.PortOutside) |
| Stft.Continue | src/intersect.c:196-265 | one loop pass followed by the rest of the call leaves a well-formed state and one value per input sample |
| Stft.Process | src/intersect.c:195-266 | a `run` call leaves a well-formed state and emits exactly one value per input sample |
| Streaming.ProcessAccounts | src/intersect.c:230-257 | every sample fed either completes a hop or is still counted in the hop position |
| Streaming.ProcessCounts | src/intersect.c:230-257 | a call runs exactly (deviation + sample_count) / jump hop cycles and leaves the deviation at (deviation + sample_count) mod jump |
| Streaming.IngestSplit | src/intersect.c:222-230 | ingesting two pieces inside one hop is ingesting their concatenation |
| Streaming.EmitSplit | src/intersect.c:199-217 | the values emitted over m + k samples are those over m followed by those over k, read after the first m |
| Streaming.ExtendSubBlock | src/intersect.c:222-230 | ingesting part of a hop keeps the accumulator and residuals and advances only the position |
| Streaming.ProcessStep | src/intersect.c:195-265 | one loop iteration: a call is its first sub-block followed by a call on the rest |
| Streaming.ProcessEmpty | src/intersect.c:195 | a call on zero samples changes nothing and emits nothing |
| Streaming.ProcessInsideHop | src/intersect.c:195-231 | a call that ends strictly inside the current hop only ingests and emits, and runs no cycle |
| Streaming.ProcessAfterPrefix | src/intersect.c:195-266 | a call on x ++ y, with x ending inside the hop, emits for x and continues as a call on y |
| Streaming.SplitInsideHop | src/intersect.c:195-266 | splitting a call inside the first hop composes two calls |
| Streaming.ProcessSplit | src/intersect.c:195-266 | block-size independence: one call on x ++ y equals a call on x followed by a call on y, in state, output and cycle count |
| Streaming.ProcessOneBlock | src/intersect.c:196-258 | a call whose input fits in the rest of the hop is exactly one sub-block |
| Streaming.ProcessExtend | src/intersect.c:195-265 | consuming the next sub-block of a stream extends the state and the output of the call on the prefix |
| Streaming.InitialTracks | src/intersect.c:121-122 | after activation the windows and residuals mirror a history of one frame of zeros |
| Streaming.IngestMirrors | src/intersect.c:222-228 | input copied right after the filled part of a window extends the mirrored history |
| Streaming.IngestTracks | src/intersect.c:222-230 | ingesting keeps the memory invariant, with the input appended to the history |
| Streaming.HopMirrors | src/intersect.c:252-255 | at a hop boundary a full window is the last fft_size history samples; copying its first hop to the residual and sliding it keeps the mirror |
| Streaming.HopCycleMoves | src/intersect.c:252-255 | a hop cycle slides both windows by a hop and takes each window's oldest hop as the residual |
| Streaming.HopTracks | src/intersect.c:232-258 | at a hop boundary the windows hold exactly the last fft_size samples of each channel, and the cycle keeps the memory invariant |
| Streaming.SubBlockTracks | src/intersect.c:222-258 | a sub-block keeps the memory invariant, with its input appended to the history |
| Streaming.HeadTracks | src/intersect.c:215 | residual plus center of the value emitted at the current position is the raw sample fed fft_size samples before the next one |
| Streaming.ProcessTracks | src/intersect.c:195-266 | the memory invariant holds from call to call, with all input appended to the history |
| Streaming.ProcessHead | src/intersect.c:199-200 | the first value a call emits is read at the current hop position |
| Streaming.OutAt | src/intersect.c:195-265 | sample i of a call is the first sample of a call on the input from i on, made in the state the first i samples leave |
| Streaming.ProcessDelays | src/intersect.c:268-270 | for every sample of a call, residual plus center equals the raw sample fed fft_size samples earlier, on each channel |
| Streaming.LatencyFromActivation | src/intersect.c:268-270 | from activation on, residual plus center of sample i is raw sample i - fft_size, or zero for the first fft_size samples: the delay is the reported latency |
| Output.EmitColumns | src/intersect.c:199-217 | the emitted values are, column by column, the scaled accumulator slice and each residual slice minus that center column |
| Output.PortIsWrite | src/intersect.c:203-220 | a port the effect writes holds over the sub-block the column of that port's values |
| Output.PortKeeps | src/intersect.c:203-219 | a port the effect does not write keeps its contents |
| Output.PortOutside | src/intersect.c:203-220 | an output stage changes a port only over its own sub-block |
| Output.PortNothing | src/intersect.c:195 | emitting nothing leaves every port as it was |
| Output.PortThen | src/intersect.c:262-264 | writing the values of a sub-block after those of the preceding samples is writing all of them from the start |
| Output.StagePorts | src/intersect.c:203-220 | port 0 gets the center column under Intersect and the left column otherwise, port 1 the right column unless Intersect, port 2 the center column only under Upmix |
| Plugin.StoreCenter | src/intersect.cc:56-61 | the first slot is a real port; for Intersect and Upmix it is the port where the center belongs; for SymmetricDifference it is the port that takes the right residual; it is never the left port unless the effect is Intersect |
| Plugin.CMax | src/intersect.c:25 | the C `max` macro gives one of its arguments, at least both |
| Plugin.CMin | src/intersect.c:24 | the C `min` macro gives one of its arguments, at most both |
| Plugin.NegativeHintsC | src/init.c:41-45 | the C builds clamp a negative float hint to 1 before converting it, so negative hints give a 2-sample frame with overlap factor 1, as hints of 1 do |
| Plugin.PortExtend | src/intersect.c:203-264 | writing a sub-block's values over a port that holds the values of the first p samples makes it hold the values of the first p + n samples |
| Plugin.Engine.constructor | src/init.c:29-31 | a fresh instance holds zero frame size, overlap factor, hop, normalisation factor and hop position, and is not yet activated |
| Plugin.Engine.ActivateRounding | src/intersect.c:94-126 | activation with half-up rounded hints yields valid parameters derived from them, fresh distinct buffers of the C sizes, and the all-zero initial engine state |
| Plugin.Engine.ActivateTruncating | src/init.c:37-69 | the same for the split C build, with truncated hints |
| Plugin.Engine.ActivateC | src/init.c:41-68 | the shared C activation from the converted float values: parameters, buffers and zero state |
| Plugin.Engine.SetParametersC | src/init.c:41-49 | the C `max`/`min` macros on float values give exactly Derive of the truncated hints, with the hop position reset |
| Plugin.Engine.AllocateC | src/init.c:51-65 | every buffer is fresh and distinct, has its C size, and the windows, residuals and accumulator are zero |
| Plugin.Engine.AllocateWindows | src/init.c:51-52 | two fresh windows of fft_size zeros |
| Plugin.Engine.AllocateResiduals | src/init.c:56-58 | `calloc` gives two zeroed residual hops and a zeroed accumulator, all distinct |
| Plugin.Engine.AllocateSpectra | src/init.c:54-62 | fresh, distinct transform buffers; each complex array holds fft_size / 2 + 1 interleaved bins |
| Plugin.Engine.ZeroSnapshot | src/init.c:56-65 | zeroed buffers at hop position 0 are the initial engine state |
| Plugin.Engine.ActivatePadded | src/init.cc:73-123 | the C++ activation: truncated hints, padded buffer lengths, zero state, and buffers long enough for the vector loops of the current width |
| Plugin.Engine.SetParametersPadded | src/init.cc:79-87 | `std::max` and `std::clamp` on the converted hints give Derive of the truncated hints, with the hop position reset |
| Plugin.Engine.AllocatePadded | src/init.cc:89-107 | every buffer is fresh and distinct; the residuals, accumulator and inverse result are padded with `pad_floats`; the live parts are zero |
| Plugin.Engine.AllocatePaddedResiduals | src/init.cc:94-99 | padded residuals and accumulator whose live parts `zero_fill` has zeroed |
| Plugin.Engine.ShiftCenter | src/intersect.c:233-234 | the accumulator drops its oldest hop and gains a hop of zeros |
| Plugin.Engine.Forward | src/intersect.c:236-238 | each complex buffer holds the interleaved forward transform of its channel's window |
| Plugin.Engine.Choose | src/intersect.cc:99-123 | in both builds the selected spectrum is the bin-by-bin quieter selection of the two transforms |
| Plugin.Engine.Analyse | src/intersect.c:236-247 | the inverse result is the inverse transform of the selection of the two windows' spectra |
| Plugin.Engine.OverlapAdd | src/intersect.cc:127-131 | in both builds the live accumulator gains the inverse result, sample by sample |
| Plugin.Engine.KeepResidual | src/intersect.c:253-254 | a residual takes its window's oldest hop and the window slides by a hop |
| Plugin.Engine.KeepResiduals | src/intersect.c:252-255 | the same for both channels |
| Plugin.Engine.Cycle | src/intersect.c:232-258 | the array hop cycle leaves exactly the state HopCycle specifies, and keeps the object valid |
| Plugin.Engine.ScaleCenter | src/intersect.cc:63-66 | the target port gets the sub-block's center column |
| Plugin.Engine.SubtractCenter | src/intersect.c:210-217 | right first, then left in place over the center: the two ports get the residual columns |
| Plugin.Engine.Columns | src/intersect.c:199-215 | the output stage's array slices give the emitted columns |
| Plugin.Engine.EmitC | src/intersect.c:199-220 | the C output stage leaves each port as Port specifies for the effect |
| Plugin.Engine.SubtractSlot | src/intersect.cc:68-81 | with the center parked in `store_center`'s slot, both ports get the residual columns, the left one before the slot is overwritten |
| Plugin.Engine.EmitStoreCenter | src/intersect.cc:56-81 | the C++ output stage leaves each port as Port specifies, the same as the C stage |
| Plugin.Engine.Append | src/intersect.c:222-230 | copying a sub-block into the windows and advancing the position is Ingest |
| Plugin.Engine.Advance | src/intersect.c:222-258 | the array state after a sub-block, with a hop cycle when the hop completes, is SubBlock |
| Plugin.Engine.Block | src/intersect.c:196-258 | one loop iteration: ports as Port specifies and state as SubBlock specifies |
| Plugin.Engine.Pass | src/intersect.c:195-265 | one loop iteration extends the call on the prefix by one sub-block, in state and ports |
| Plugin.Engine.Stream | src/intersect.cc:47-146 | the whole loop leaves the state and ports exactly as Process specifies |
| Plugin.Engine.Run | src/intersect.c:190-271 | `run` leaves the state and the three ports as Process specifies, and reports fft_size as the latency |
| Plugin.SelectBins | src/intersect.c:240-245 | the scalar loop writes the bin-by-bin selection of the two interleaved spectra |
| Plugin.SelectLanes | src/intersect.cc:108-123 | the lane loop writes the lane-wise selection, which equals the scalar one |

## Left out

- FFT internals. FFTW's planning and transforms are a parameter (`Fft`) whose functions are only known to produce the right lengths. No spectral property (linearity, reconstruction, what the center estimate means acoustically) is modelled or used. The C++ build's single two-channel plan (`fftwf_plan_many_dft_r2c`) is modelled as two forward transforms.
- Forward plans and their inputs. The C builds create the forward plans with `FFTW_DESTROY_INPUT`, yet they read the windows after executing those plans (src/intersect.c:123, src/intersect.c:253). The model assumes the forward transforms leave their input intact. The C++ build drops that flag.
- Planning and the zeroed windows. Every activation zeroes the windows and then plans with `FFTW_MEASURE` or `FFTW_PATIENT` (src/intersect.c:122-123, src/init.c:65-66, src/init.cc:106-120). FFTW documents that such planning may overwrite the arrays it is given. The activation contracts assume planning leaves the windows zero.
- Floating point. Samples, hints and the normalisation factor are exact reals. Rounding of the float operations and of `1.f / (fft_size * overlap_factor)` is not modelled.
- Hint conversion. The C builds clamp the float hint with `max(1, ...)` before converting it (src/intersect.c:98, src/intersect.c:102, src/init.c:41, src/init.c:45). A negative hint is therefore defined there and gives a 2-sample frame with overlap factor 1 (Plugin.NegativeHintsC). The C++ build converts the hint to `uint32_t` first (src/init.cc:79, src/init.cc:83), so a negative hint is an undefined conversion there. The activation methods of every build require non-negative hints; this is a modelling choice, and the C builds' negative-hint path is stated only by Plugin.NegativeHintsC. NaN and out-of-range floats, and 32-bit overflow of `fft_size * overlap_factor`, are not modelled.
- Integer widths. Sample counts and sizes are unbounded naturals, so `uint32_t` and `int` wrap-around is not modelled.
- Highway's dynamic dispatch. The vector width (`Lanes(d)`) and the widest width (`MaxLanes(d)`) are parameters, with the widest a multiple of the current one.
- Highway's `Transform1`/`Transform2` tail handling. These are modelled as element-wise maps over exactly the given count.
- Padding contents. The contents of the padding beyond the live part of a padded buffer are not part of the engine state.
- Aliasing. Output ports are assumed distinct from each other, from the inputs and from the engine's buffers; in-place hosts (an output port sharing a buffer with an input) are not modelled. The input cursors and output cursors are offsets into the port arrays.
- The split C build's `run`. The file defining `intersect_run`, `symmetric_difference_run` and `upmix_run` (declared at src/intersect.h:23-25) is not part of this model. `Plugin.Engine.Run` with `CBuild` after `Plugin.Engine.ActivateTruncating` assumes that build runs the loop at src/intersect.c:190-271.
- LV2 plumbing is not part of this model. This covers `instantiate` beyond an empty constructor, `connect_port`, `deactivate` (freeing buffers and plans), `cleanup`, the descriptors and `src/main.c`.
- Plugin.Engine.constructor: starts from the zeroed instance that `calloc` gives in the C build. The C++ build's `new Intersect` (src/init.cc:65) leaves the fields uninitialised, which is not modelled. Port pointers are not part of the instance, and its null buffer pointers are modelled as empty arrays.
