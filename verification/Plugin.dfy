/** The plugin instance (`struct Intersect`) with its buffers as arrays:
    the three `activate` variants that size and zero them, and the `run`
    block loop of the C build and of the C++/Highway build, each proved to
    move the instance exactly as the engine specification `Stft.Process`
    does and to leave on every output port what `Stft.BusSample` says.

    Samples are `real`s. Spectra are kept in the interleaved float layout
    (`fftSize + 2` floats for `fftSize / 2 + 1` bins), which is how the
    vectorised selection reads them. The two FFTW plans are the `plans`
    value: executing a forward plan stores the flattened spectrum of its
    window, executing the inverse plan stores the real frame.
 */
module Plugin {
  import opened Params
  import opened Spectral
  import opened Stft
  import opened Lanes
  import opened Buffers
  import opened Streaming
  import opened Output

  /** Which `run` is compiled: the C loop (`src/intersect.c`, taken also for
      the split C build) or the C++/Highway build (`src/intersect.cc`) on a
      target whose float vectors hold `lanes` lanes. */
  datatype Build = CBuild | HighwayBuild(lanes: nat)

  /** The C `max` macro on floats. */
  function CMax(a: real, b: real): (r: real)
    ensures r >= a && r >= b && (r == a || r == b)
  {
    if a > b then a else b
  }

  /** The C `min` macro on floats. */
  function CMin(a: real, b: real): (r: real)
    ensures r <= a && r <= b && (r == a || r == b)
  {
    if a < b then a else b
  }

  /** The C builds clamp the float hints before converting them, so a
      negative hint is defined there: it gives a frame of 2 samples and an
      overlap factor of 1, which is what a hint of 1 gives. */
  lemma {:induction false} NegativeHintsC(size: nat, x: real)
    requires size >= 1 && x < 0.0
    ensures CMax(1.0, x).Floor == 1
    ensures CMax(1.0, CMin(size as real, x)).Floor == 1
    ensures Derive(1, 1) == Config(2, 1, 2, 0.5)
  {
  }

  /** `store_center`: the output slot that first receives the center
      estimate in the C++ build. For Intersect and Upmix it is where the
      center belongs; for SymmetricDifference it is the right port, which
      the right residual later overwrites in place. */
  function StoreCenter(effect: Effect): (slot: nat)
    ensures slot < 3
    ensures effect != SymmetricDifference ==> forall o, prev :: BusSample(effect, slot, o, prev) == o.center
    ensures effect != Intersect ==> slot != 0
    ensures effect == SymmetricDifference ==> forall o, prev :: BusSample(effect, slot, o, prev) == o.right
  {
    match effect
    case Intersect => 0
    case SymmetricDifference => 1
    case Upmix => 2
  }

  /** One turn of the `run` loop on an output port: writing what the
      sub-block of n samples from p emits over a port that holds what the
      first p samples left makes it hold what the first p + n samples
      leave. */
  lemma {:induction false} PortExtend(effect: Effect, bus: nat, c: Config, f: Fft, s: State,
                                      xL: seq<real>, xR: seq<real>, prev: seq<real>, p: nat, n: nat)
    requires Framing(c) && Lawful(f) && WellFormed(c, s)
    requires |xL| == |xR| && 0 < n && p + n <= |xL| && p + n <= |prev|
    requires Process(c, f, s, xL[..p], xR[..p]).state.deviation + n <= c.jump
    ensures Port(effect, bus, Port(effect, bus, prev, 0, Process(c, f, s, xL[..p], xR[..p]).out), p,
                 Emit(c, Process(c, f, s, xL[..p], xR[..p]).state, n))
         == Port(effect, bus, prev, 0, Process(c, f, s, xL[..p + n], xR[..p + n]).out)
  {
    var done := Process(c, f, s, xL[..p], xR[..p]);
    ProcessExtend(c, f, s, xL, xR, p, n);
    PortThen(effect, bus, prev, done.out, Emit(c, done.state, n));
  }

  class Engine {
    var fftSize: nat
    var overlapFactor: nat
    var jumpSize: nat
    var normalization: real
    /** Position inside the current hop: how many of the jump samples of
        the residual/center hop have been emitted and how many new input
        samples have been appended past the stable fftSize - jump. */
    var deviation: nat

    var inputL: array<real>        // input_buffer[LEFT]
    var inputR: array<real>        // input_buffer[RIGHT]
    var residualL: array<real>     // output_buffer[LEFT]
    var residualR: array<real>     // output_buffer[RIGHT]
    var center: array<real>        // output_buffer[CENTER]
    var ifftResult: array<real>
    var transformedL: array<real>  // transformed[LEFT], interleaved
    var transformedR: array<real>  // transformed[RIGHT], interleaved
    var preOutput: array<real>     // pre_output, interleaved
    var plans: Fft

    /** The parameters as a value. */
    ghost function Settings(): Config
      reads this`fftSize, this`overlapFactor, this`jumpSize, this`normalization
    {
      Config(fftSize, overlapFactor, jumpSize, normalization)
    }

    ghost function Storage(): set<array<real>>
      reads this`inputL, this`inputR, this`residualL, this`residualR, this`center, this`ifftResult, this`transformedL, this`transformedR, this`preOutput
    {
      {inputL, inputR, residualL, residualR, center, ifftResult, transformedL, transformedR, preOutput}
    }

    ghost predicate Distinct()
      reads this`inputL, this`inputR, this`residualL, this`residualR, this`center, this`ifftResult, this`transformedL, this`transformedR, this`preOutput
    {
      && inputL != inputR && inputL != residualL && inputL != residualR && inputL != center && inputL != ifftResult && inputL != transformedL && inputL != transformedR && inputL != preOutput
      && inputR != residualL && inputR != residualR && inputR != center && inputR != ifftResult && inputR != transformedL && inputR != transformedR && inputR != preOutput
      && residualL != residualR && residualL != center && residualL != ifftResult && residualL != transformedL && residualL != transformedR && residualL != preOutput
      && residualR != center && residualR != ifftResult && residualR != transformedL && residualR != transformedR && residualR != preOutput
      && center != ifftResult && center != transformedL && center != transformedR && center != preOutput
      && ifftResult != transformedL && ifftResult != transformedR && ifftResult != preOutput
      && transformedL != transformedR && transformedL != preOutput
      && transformedR != preOutput
    }

    /** An activated instance: its parameters and its buffers. */
    ghost predicate Allocated()
      reads this`fftSize, this`overlapFactor, this`jumpSize, this`normalization, this`plans, this`inputL, this`inputR, this`residualL, this`residualR, this`center, this`ifftResult, this`transformedL, this`transformedR, this`preOutput
    {
      && Framing(Settings()) && Lawful(plans)
      && inputL.Length == fftSize && inputR.Length == fftSize
      && residualL.Length >= jumpSize && residualR.Length >= jumpSize
      && center.Length >= fftSize && ifftResult.Length >= fftSize
      && transformedL.Length == fftSize + 2 && transformedR.Length == fftSize + 2
      && preOutput.Length == fftSize + 2
      && Distinct()
    }

    /** An activated instance between sub-blocks. */
    ghost predicate Valid()
      reads this
    {
      Allocated() && deviation < jumpSize
    }

    /** The engine state the buffers hold. Only the first jump floats of a
        residual buffer and the first fftSize floats of the accumulator are
        state; the rest is padding. */
    ghost function Snapshot(): State
      reads this, Storage()
      requires Allocated()
    {
      State(inputL[..], inputR[..], residualL[..jumpSize], residualR[..jumpSize], center[..fftSize], deviation)
    }

    /** What the chosen build's lane-stepped loops need of the padding. */
    ghost predicate Fits(build: Build)
      reads this`fftSize, this`center, this`ifftResult
    {
      match build
      case CBuild => true
      case HighwayBuild(lanes) =>
        lanes >= 1 && Cover(fftSize, lanes) <= center.Length && Cover(fftSize, lanes) <= ifftResult.Length
    }

    /** Three distinct output ports (`output[LEFT]`, `output[RIGHT]`,
        `output[CENTER]`), each with room for `need` samples and none of
        them an engine buffer. */
    ghost predicate Ports(outL: array<real>, outR: array<real>, outC: array<real>, need: nat)
      reads this`inputL, this`inputR, this`residualL, this`residualR, this`center, this`ifftResult, this`transformedL, this`transformedR, this`preOutput
    {
      && outL != outR && outL != outC && outR != outC
      && need <= outL.Length && need <= outR.Length && need <= outC.Length
      && outL !in Storage() && outR !in Storage() && outC !in Storage()
    }

    /** Two input ports with `need` samples, neither an output port nor an
        engine buffer. */
    ghost predicate Inputs(inL: array<real>, inR: array<real>, outL: array<real>, outR: array<real>, outC: array<real>, need: nat)
      reads this`inputL, this`inputR, this`residualL, this`residualR, this`center, this`ifftResult, this`transformedL, this`transformedR, this`preOutput
    {
      && need <= inL.Length && need <= inR.Length
      && inL !in Storage() && inR !in Storage()
      && inL != outL && inL != outR && inL != outC
      && inR != outL && inR != outR && inR != outC
    }

    /** `instantiate`: an instance without buffers; it must be activated
        before it runs. */
    constructor ()
      ensures fftSize == 0 && overlapFactor == 0 && jumpSize == 0 && normalization == 0.0
      ensures deviation == 0 && !Valid()
    {
      fftSize, overlapFactor, jumpSize, normalization, deviation := 0, 0, 0, 0.0, 0;
      inputL, inputR := new real[0], new real[0];
      residualL, residualR, center := new real[0], new real[0], new real[0];
      ifftResult := new real[0];
      transformedL, transformedR, preOutput := new real[0], new real[0], new real[0];
      plans := Fft(w => [], (n, b) => []);
    }

    /** `activate` of the self-contained C build: the hints are rounded
        half up (`hint + .5f`). */
    method ActivateRounding(sizeHint: real, overlapHint: real, planned: Fft)
      requires sizeHint >= 0.0 && overlapHint >= 0.0 && Lawful(planned)
      modifies this
      ensures Valid() && fresh(Storage()) && plans == planned && ValidConfig(Settings())
      ensures Settings() == Derive(RoundHint(sizeHint), RoundHint(overlapHint))
      ensures Snapshot() == Initial(Settings())
      ensures residualL.Length == jumpSize && residualR.Length == jumpSize
      ensures center.Length == fftSize && ifftResult.Length == fftSize
      ensures Fits(CBuild)
    {
      ActivateC(sizeHint + 0.5, overlapHint + 0.5, planned);
    }

    /** `activate` of the split C build: the hints are truncated. */
    method ActivateTruncating(sizeHint: real, overlapHint: real, planned: Fft)
      requires sizeHint >= 0.0 && overlapHint >= 0.0 && Lawful(planned)
      modifies this
      ensures Valid() && fresh(Storage()) && plans == planned && ValidConfig(Settings())
      ensures Settings() == Derive(TruncHint(sizeHint), TruncHint(overlapHint))
      ensures Snapshot() == Initial(Settings())
      ensures residualL.Length == jumpSize && residualR.Length == jumpSize
      ensures center.Length == fftSize && ifftResult.Length == fftSize
      ensures Fits(CBuild)
    {
      ActivateC(sizeHint, overlapHint, planned);
    }

    /** The body both C builds share, given the float values they convert:
        `max(1, size)` made even, `max(1, min(fft_size, overlap))`, the hop
        and the normalisation; unpadded buffers, the residual and center
        buffers from `calloc`, the windows cleared by `memset`. */
    method ActivateC(sizeValue: real, overlapValue: real, planned: Fft)
      requires sizeValue >= 0.0 && overlapValue >= 0.0 && Lawful(planned)
      modifies this
      ensures Valid() && fresh(Storage()) && plans == planned && ValidConfig(Settings())
      ensures Settings() == Derive(TruncHint(sizeValue), TruncHint(overlapValue))
      ensures Snapshot() == Initial(Settings())
      ensures residualL.Length == jumpSize && residualR.Length == jumpSize
      ensures center.Length == fftSize && ifftResult.Length == fftSize
      ensures Fits(CBuild)
    {
      SetParametersC(sizeValue, overlapValue);
      AllocateC();
      plans := planned;
      ZeroSnapshot();
    }

    /** The parameter half of the C builds' `activate`. */
    method SetParametersC(sizeValue: real, overlapValue: real)
      requires sizeValue >= 0.0 && overlapValue >= 0.0
      modifies this`fftSize, this`overlapFactor, this`jumpSize, this`normalization, this`deviation
      ensures Settings() == Derive(TruncHint(sizeValue), TruncHint(overlapValue)) && deviation == 0
    {
      var size := CMax(1.0, sizeValue).Floor;
      if size % 2 != 0 {
        size := size + 1;
      }
      fftSize := size;
      overlapFactor := CMax(1.0, CMin(fftSize as real, overlapValue)).Floor;
      ConvertedOverlap(fftSize, overlapValue);
      jumpSize := JumpSize(fftSize, overlapFactor);
      normalization := Normalization(fftSize, overlapFactor);
      deviation := 0;
    }

    /** The buffer half of the C builds' `activate`: `fftwf_alloc` for the
        windows, the inverse-transform output and the spectra, `calloc` for
        the residual and center buffers, then `memset` on both windows. */
    method AllocateC()
      requires 1 <= jumpSize <= fftSize
      modifies this`inputL, this`inputR, this`residualL, this`residualR, this`center
      modifies this`ifftResult, this`transformedL, this`transformedR, this`preOutput
      ensures fresh(Storage()) && Distinct()
      ensures inputL.Length == fftSize && inputR.Length == fftSize
      ensures residualL.Length == jumpSize && residualR.Length == jumpSize
      ensures center.Length == fftSize && ifftResult.Length == fftSize
      ensures transformedL.Length == fftSize + 2 && transformedR.Length == fftSize + 2
      ensures preOutput.Length == fftSize + 2
      ensures forall k :: 0 <= k < fftSize ==> inputL[k] == 0.0 && inputR[k] == 0.0 && center[k] == 0.0
      ensures forall k :: 0 <= k < jumpSize ==> residualL[k] == 0.0 && residualR[k] == 0.0
    {
      AllocateWindows();
      AllocateResiduals();
      AllocateSpectra(fftSize);
    }

    /** The two windows from `fftwf_alloc_real`, cleared by `memset`. */
    method AllocateWindows()
      modifies this`inputL, this`inputR
      ensures fresh(inputL) && fresh(inputR) && inputL != inputR
      ensures inputL.Length == fftSize && inputR.Length == fftSize
      ensures forall k :: 0 <= k < fftSize ==> inputL[k] == 0.0 && inputR[k] == 0.0
    {
      inputL := new real[fftSize];
      inputR := new real[fftSize];
      Fill(inputL, 0, fftSize, 0.0);
      Fill(inputR, 0, fftSize, 0.0);
    }

    /** The residual and center buffers from `calloc`. */
    method AllocateResiduals()
      modifies this`residualL, this`residualR, this`center
      ensures fresh(residualL) && fresh(residualR) && fresh(center)
      ensures residualL != residualR && residualL != center && residualR != center
      ensures residualL.Length == jumpSize && residualR.Length == jumpSize && center.Length == fftSize
      ensures forall k :: 0 <= k < jumpSize ==> residualL[k] == 0.0 && residualR[k] == 0.0
      ensures forall k :: 0 <= k < fftSize ==> center[k] == 0.0
    {
      residualL := new real[jumpSize](_ => 0.0);
      residualR := new real[jumpSize](_ => 0.0);
      center := new real[fftSize](_ => 0.0);
    }

    /** The inverse-transform output (`ifftLength` floats from
        `fftwf_alloc_real`), the two spectra and the selected spectrum
        (`fftSize / 2 + 1` complex values each, from `fftwf_alloc_complex`). */
    method AllocateSpectra(ifftLength: nat)
      modifies this`ifftResult, this`transformedL, this`transformedR, this`preOutput
      ensures fresh(ifftResult) && fresh(transformedL) && fresh(transformedR) && fresh(preOutput)
      ensures ifftResult != transformedL && ifftResult != transformedR && ifftResult != preOutput
      ensures transformedL != transformedR && transformedL != preOutput && transformedR != preOutput
      ensures ifftResult.Length == ifftLength
      ensures transformedL.Length == fftSize + 2 && transformedR.Length == fftSize + 2
      ensures preOutput.Length == fftSize + 2
    {
      ifftResult := new real[ifftLength];
      transformedL := new real[fftSize + 2];
      transformedR := new real[fftSize + 2];
      preOutput := new real[fftSize + 2];
    }

    /** The overlap factor the C builds compute from the float value is the
        clamp of its truncation. */
    static lemma {:induction false} ConvertedOverlap(size: nat, x: real)
      requires size >= 1 && x >= 0.0
      ensures CMax(1.0, CMin(size as real, x)).Floor == OverlapClamp(TruncHint(x), size)
    {
      OverlapClampsAgree(TruncHint(x), size);
    }

    /** The cleared buffers are the initial state. */
    lemma ZeroSnapshot()
      requires Allocated() && deviation == 0
      requires forall k :: 0 <= k < fftSize ==> inputL[k] == 0.0 && inputR[k] == 0.0 && center[k] == 0.0
      requires forall k :: 0 <= k < jumpSize ==> residualL[k] == 0.0 && residualR[k] == 0.0
      ensures Snapshot() == Initial(Settings())
    {
      assert inputL[..] == Zeros(fftSize);
      assert inputR[..] == Zeros(fftSize);
      assert center[..fftSize] == Zeros(fftSize);
      assert residualL[..jumpSize] == Zeros(jumpSize);
      assert residualR[..jumpSize] == Zeros(jumpSize);
    }

    /** `activate` of the C++/Highway build: truncating conversion with
        `std::max` and `std::clamp`; the inverse-transform output, residual
        and center buffers padded to `pad_floats` and cleared with
        `zero_fill` on a target of `lanes` lanes (at most `maxLanes`); the
        windows cleared by a `memset` loop. */
    method ActivatePadded(sizeHint: real, overlapHint: real, planned: Fft, lanes: nat, maxLanes: nat)
      requires sizeHint >= 0.0 && overlapHint >= 0.0 && Lawful(planned)
      requires lanes >= 1 && maxLanes >= 1 && maxLanes % lanes == 0
      modifies this
      ensures Valid() && fresh(Storage()) && plans == planned && ValidConfig(Settings())
      ensures Settings() == Derive(TruncHint(sizeHint), TruncHint(overlapHint))
      ensures Snapshot() == Initial(Settings())
      ensures residualL.Length == PadFloats(jumpSize, maxLanes) && residualR.Length == PadFloats(jumpSize, maxLanes)
      ensures center.Length == PadFloats(fftSize, maxLanes) && ifftResult.Length == PadFloats(fftSize, maxLanes)
      ensures Fits(HighwayBuild(lanes))
    {
      CoverWithinPad(Derive(TruncHint(sizeHint), TruncHint(overlapHint)).fftSize, lanes, maxLanes);
      SetParametersPadded(sizeHint, overlapHint);
      AllocatePadded(lanes, maxLanes);
      plans := planned;
      ZeroSnapshot();
    }

    /** The buffer half of the C++ build's `activate`. */
    method AllocatePadded(lanes: nat, maxLanes: nat)
      requires 1 <= jumpSize <= fftSize
      requires lanes >= 1 && maxLanes >= 1 && maxLanes % lanes == 0
      modifies this`inputL, this`inputR, this`residualL, this`residualR, this`center
      modifies this`ifftResult, this`transformedL, this`transformedR, this`preOutput
      ensures fresh(Storage()) && Distinct()
      ensures inputL.Length == fftSize && inputR.Length == fftSize
      ensures residualL.Length == PadFloats(jumpSize, maxLanes) && residualR.Length == PadFloats(jumpSize, maxLanes)
      ensures center.Length == PadFloats(fftSize, maxLanes) && ifftResult.Length == PadFloats(fftSize, maxLanes)
      ensures transformedL.Length == fftSize + 2 && transformedR.Length == fftSize + 2
      ensures preOutput.Length == fftSize + 2
      ensures forall k :: 0 <= k < fftSize ==> inputL[k] == 0.0 && inputR[k] == 0.0 && center[k] == 0.0
      ensures forall k :: 0 <= k < jumpSize ==> residualL[k] == 0.0 && residualR[k] == 0.0
    {
      AllocateWindows();
      AllocatePaddedResiduals(lanes, maxLanes);
      AllocateSpectra(PadFloats(fftSize, maxLanes));
    }

    /** The parameter half of the C++ build's `activate`. */
    method SetParametersPadded(sizeHint: real, overlapHint: real)
      requires sizeHint >= 0.0 && overlapHint >= 0.0
      modifies this`fftSize, this`overlapFactor, this`jumpSize, this`normalization, this`deviation
      ensures Settings() == Derive(TruncHint(sizeHint), TruncHint(overlapHint)) && deviation == 0
    {
      var requested := TruncHint(sizeHint);
      var size := if 1 < requested then requested else 1;
      if size % 2 != 0 {
        size := size + 1;
      }
      fftSize := size;
      OverlapClampsAgree(TruncHint(overlapHint), fftSize);
      overlapFactor := OverlapClamp(TruncHint(overlapHint), fftSize) as nat;
      jumpSize := JumpSize(fftSize, overlapFactor);
      normalization := Normalization(fftSize, overlapFactor);
      deviation := 0;
    }

    /** The residual and center buffers of the C++ build: `pad_floats`
        floats each, cleared by `zero_fill` over the hop and the frame. */
    method AllocatePaddedResiduals(lanes: nat, maxLanes: nat)
      requires lanes >= 1 && maxLanes >= 1 && maxLanes % lanes == 0
      modifies this`residualL, this`residualR, this`center
      ensures fresh(residualL) && fresh(residualR) && fresh(center)
      ensures residualL != residualR && residualL != center && residualR != center
      ensures residualL.Length == PadFloats(jumpSize, maxLanes) && residualR.Length == PadFloats(jumpSize, maxLanes)
      ensures center.Length == PadFloats(fftSize, maxLanes)
      ensures forall k :: 0 <= k < jumpSize ==> residualL[k] == 0.0 && residualR[k] == 0.0
      ensures forall k :: 0 <= k < fftSize ==> center[k] == 0.0
    {
      CoverWithinPad(jumpSize, lanes, maxLanes);
      CoverWithinPad(fftSize, lanes, maxLanes);
      residualL := new real[PadFloats(jumpSize, maxLanes)];
      ZeroFill(residualL, jumpSize, lanes);
      residualR := new real[PadFloats(jumpSize, maxLanes)];
      ZeroFill(residualR, jumpSize, lanes);
      center := new real[PadFloats(fftSize, maxLanes)];
      ZeroFill(center, fftSize, lanes);
    }
    /** Shift of the accumulator at the start of a hop cycle (`memmove`
        then `memset`): the oldest hop leaves, a hop of zeros enters. */
    method ShiftCenter()
      requires Allocated()
      modifies center
      ensures center[..fftSize] == ShiftOut(old(center[..fftSize]), jumpSize)
    {
      ghost var was := center[..];
      MoveLeft(center, jumpSize, fftSize - jumpSize);
      Fill(center, fftSize - jumpSize, jumpSize, 0.0);
      MoveFillIsShift(was, fftSize, jumpSize);
    }

    /** Executing the forward plans, selecting bin by bin (the scalar loop
        in the C build and on one-lane targets, the lane-wise `Transform2`
        otherwise), and executing the inverse plan. */
    method Analyse(build: Build)
      requires Allocated()
      modifies transformedL, transformedR, preOutput, ifftResult
      ensures ifftResult[..fftSize]
           == plans.inverse(fftSize, Select(plans.forward(inputL[..]), plans.forward(inputR[..])))
    {
      ghost var spectrumL, spectrumR := plans.forward(inputL[..]), plans.forward(inputR[..]);
      Forward();
      Choose(build, spectrumL, spectrumR);
      Store(ifftResult, plans.inverse(fftSize, Unflatten(preOutput[..])));
    }

    /** The two forward plans, each writing its interleaved spectrum. */
    method Forward()
      requires Allocated()
      modifies transformedL, transformedR
      ensures transformedL[..] == Flatten(plans.forward(inputL[..]))
      ensures transformedR[..] == Flatten(plans.forward(inputR[..]))
    {
      Store(transformedL, Flatten(plans.forward(inputL[..])));
      Store(transformedR, Flatten(plans.forward(inputR[..])));
    }

    /** The selection stage on the interleaved spectra the forward plans
        wrote: whichever loop the build runs, pre_output holds the
        bin-by-bin selection. */
    method Choose(build: Build, ghost spectrumL: seq<Bin>, ghost spectrumR: seq<Bin>)
      requires Allocated() && |spectrumL| == |spectrumR| == fftSize / 2 + 1
      requires transformedL[..] == Flatten(spectrumL) && transformedR[..] == Flatten(spectrumR)
      modifies preOutput
      ensures Unflatten(preOutput[..]) == Select(spectrumL, spectrumR)
    {
      UnflattenFlatten(spectrumL);
      UnflattenFlatten(spectrumR);
      if build.CBuild? || build.lanes == 1 {
        SelectBins(preOutput, transformedL, transformedR);
      } else {
        SelectLanes(preOutput, transformedL, transformedR);
        LaneSelectAgrees(spectrumL, spectrumR);
        UnflattenFlatten(Select(spectrumL, spectrumR));
      }
    }

    /** Overlap-add of the new frame into the accumulator: element by
        element in the C build, one vector at a time in the C++ build. */
    method OverlapAdd(build: Build)
      requires Allocated() && Fits(build)
      modifies center
      ensures center[..fftSize] == AddSamples(old(center[..fftSize]), ifftResult[..fftSize])
    {
      ghost var was := center[..];
      match build
      case CBuild =>
        AddInto(center, ifftResult, fftSize);
        AddPrefixSums(was, ifftResult[..], fftSize, fftSize);
      case HighwayBuild(lanes) =>
        AddIntoLanes(center, ifftResult, fftSize, lanes);
        AddPrefixSums(was, ifftResult[..], fftSize, Cover(fftSize, lanes));
    }

    /** End of a hop cycle, per channel: the oldest hop of the window
        becomes the residual source (`memcpy`), and the window slides left
        by a hop (`memmove`). */
    method KeepResiduals()
      requires Allocated()
      modifies residualL, residualR, inputL, inputR
      ensures residualL[..jumpSize] == old(inputL[..])[..jumpSize]
      ensures residualR[..jumpSize] == old(inputR[..])[..jumpSize]
      ensures inputL[..] == Slide(old(inputL[..]), jumpSize)
      ensures inputR[..] == Slide(old(inputR[..]), jumpSize)
    {
      KeepResidual(residualL, inputL);
      KeepResidual(residualR, inputR);
    }

    /** One channel of the above. */
    method KeepResidual(residual: array<real>, window: array<real>)
      requires Allocated() && residual != window
      requires window.Length == fftSize && jumpSize <= residual.Length
      modifies residual, window
      ensures residual[..jumpSize] == old(window[..])[..jumpSize]
      ensures window[..] == Slide(old(window[..]), jumpSize)
    {
      ghost var was, kept := window[..], residual[..];
      Copy(residual, 0, window, 0, jumpSize);
      MoveLeft(window, jumpSize, fftSize - jumpSize);
      MoveIsSlide(was, jumpSize);
      assert residual[..jumpSize] == Write(kept, 0, was[..jumpSize])[..jumpSize];
    }

    /** The hop cycle, run when the deviation reaches the hop. */
    method Cycle(build: Build)
      requires Allocated() && deviation == jumpSize && Fits(build)
      modifies center, transformedL, transformedR, preOutput, ifftResult
      modifies residualL, residualR, inputL, inputR, this`deviation
      ensures Valid() && Snapshot() == HopCycle(Settings(), plans, old(Snapshot()))
    {
      ShiftCenter();
      Analyse(build);
      OverlapAdd(build);
      KeepResiduals();
      deviation := 0;
    }

    /** The output stage of the C build: the scaled center to the left
        port; then, by effect (Upmix falling through to
        SymmetricDifference), a copy of it to the center port and each
        residual minus the left port, the right channel first, so that the
        left port still holds the center when it is read. */
    method EmitC(effect: Effect, outL: array<real>, outR: array<real>, outC: array<real>, at: nat, n: nat)
      requires Valid() && deviation + n <= jumpSize && Ports(outL, outR, outC, at + n)
      modifies outL, outR, outC
      ensures outL[..] == Port(effect, 0, old(outL[..]), at, Emit(Settings(), old(Snapshot()), n))
      ensures outR[..] == Port(effect, 1, old(outR[..]), at, Emit(Settings(), old(Snapshot()), n))
      ensures outC[..] == Port(effect, 2, old(outC[..]), at, Emit(Settings(), old(Snapshot()), n))
    {
      ghost var e := Emit(Settings(), Snapshot(), n);
      ghost var pL, pR, pC := outL[..], outR[..], outC[..];
      ScaleCenter(outL, at, n, e);
      WriteRead(pL, at, Centers(e));
      if effect == Upmix {
        Copy(outC, at, outL, at, n);
      }
      if effect != Intersect {
        SubtractCenter(outL, outR, at, n, e);
        WriteOver(pL, at, Centers(e), Lefts(e));
      }
      StagePorts(effect, pL, pR, pC, at, e, outL[..], outR[..], outC[..]);
    }

    /** The scaling map (`out[i] = center[i + dev] * norm`, or `Transform1`
        with `Mul`): the center column of the sub-block goes to one port. */
    method ScaleCenter(out: array<real>, at: nat, n: nat, ghost e: seq<Out>)
      requires Valid() && deviation + n <= jumpSize && e == Emit(Settings(), Snapshot(), n)
      requires out !in Storage() && at + n <= out.Length
      modifies out
      ensures out[..] == Write(old(out[..]), at, Centers(e))
    {
      Columns(n, e);
      Scale(out, at, center, deviation, n, normalization);
    }

    /** The residual loop of the C build (`c = 1`, then `c = 0`): each
        channel port receives its residual minus the left port, which holds
        the center over the sub-block; the right channel goes first, so the
        left port still holds the center when it is read. */
    method SubtractCenter(outL: array<real>, outR: array<real>, at: nat, n: nat, ghost e: seq<Out>)
      requires Valid() && deviation + n <= jumpSize && e == Emit(Settings(), Snapshot(), n)
      requires outL != outR && outL !in Storage() && outR !in Storage()
      requires at + n <= outL.Length && at + n <= outR.Length
      requires outL[..][at..at + n] == Centers(e)
      modifies outL, outR
      ensures outL[..] == Write(old(outL[..]), at, Lefts(e))
      ensures outR[..] == Write(old(outR[..]), at, Rights(e))
    {
      Columns(n, e);
      Difference(outR, at, residualR, deviation, outL, at, n);
      Difference(outL, at, residualL, deviation, outL, at, n);
    }

    /** The columns of the sub-block read straight from the buffers. */
    lemma Columns(n: nat, e: seq<Out>)
      requires Valid() && deviation + n <= jumpSize && e == Emit(Settings(), Snapshot(), n)
      ensures Scaled(center[deviation..deviation + n], normalization) == Centers(e)
      ensures Minus(residualL[deviation..deviation + n], Centers(e)) == Lefts(e)
      ensures Minus(residualR[deviation..deviation + n], Centers(e)) == Rights(e)
    {
      EmitColumns(Settings(), Snapshot(), n);
      SliceOfPrefix(center[..], fftSize, deviation, n);
      SliceOfPrefix(residualL[..], jumpSize, deviation, n);
      SliceOfPrefix(residualR[..], jumpSize, deviation, n);
    }

    /** The output stage of the C++ build: the scaled center goes to the
        port `store_center` names; for the two residual effects each channel
        port then receives its residual minus that port (`Transform1` in
        place when the channel port is that port, `Transform2` otherwise). */
    method EmitStoreCenter(effect: Effect, outL: array<real>, outR: array<real>, outC: array<real>, at: nat, n: nat)
      requires Valid() && deviation + n <= jumpSize && Ports(outL, outR, outC, at + n)
      modifies outL, outR, outC
      ensures outL[..] == Port(effect, 0, old(outL[..]), at, Emit(Settings(), old(Snapshot()), n))
      ensures outR[..] == Port(effect, 1, old(outR[..]), at, Emit(Settings(), old(Snapshot()), n))
      ensures outC[..] == Port(effect, 2, old(outC[..]), at, Emit(Settings(), old(Snapshot()), n))
    {
      ghost var e := Emit(Settings(), Snapshot(), n);
      ghost var pL, pR, pC := outL[..], outR[..], outC[..];
      var slot := StoreCenter(effect);
      var target := if slot == 0 then outL else if slot == 1 then outR else outC;
      ScaleCenter(target, at, n, e);
      if effect != Intersect {
        ghost var pT := if effect == SymmetricDifference then pR else pC;
        WriteRead(pT, at, Centers(e));
        SubtractSlot(outL, outR, target, at, n, e);
        if effect == SymmetricDifference {
          WriteOver(pR, at, Centers(e), Rights(e));
        }
      }
      StagePorts(effect, pL, pR, pC, at, e, outL[..], outR[..], outC[..]);
    }

    /** The residual loop of the C++ build (`c = 0`, then `c = 1`): each
        channel port receives its residual minus the port that holds the
        center over the sub-block; when that port is the channel's own port
        the subtraction is in place (`Transform1`), otherwise it reads the
        other port (`Transform2`). The left port never holds the center here. */
    method SubtractSlot(outL: array<real>, outR: array<real>, target: array<real>, at: nat, n: nat, ghost e: seq<Out>)
      requires Valid() && deviation + n <= jumpSize && e == Emit(Settings(), Snapshot(), n)
      requires outL != outR && outL != target
      requires outL !in Storage() && outR !in Storage() && target !in Storage()
      requires at + n <= outL.Length && at + n <= outR.Length && at + n <= target.Length
      requires target[..][at..at + n] == Centers(e)
      modifies outL, outR
      ensures outL[..] == Write(old(outL[..]), at, Lefts(e))
      ensures outR[..] == Write(old(outR[..]), at, Rights(e))
    {
      Columns(n, e);
      Difference(outL, at, residualL, deviation, target, at, n);
      Difference(outR, at, residualR, deviation, target, at, n);
    }

    /** Appending a sub-block of raw input at offset
        fftSize - jump + deviation of each window (`memcpy`), and advancing
        the deviation. */
    method Append(inL: array<real>, inR: array<real>, at: nat, n: nat)
      requires Valid() && deviation + n <= jumpSize && at + n <= inL.Length && at + n <= inR.Length
      requires inL !in Storage() && inR !in Storage()
      modifies inputL, inputR, this`deviation
      ensures Allocated() && Snapshot() == Ingest(Settings(), old(Snapshot()), inL[at..at + n], inR[at..at + n])
    {
      ghost var s0, c := Snapshot(), Settings();
      Copy(inputL, fftSize - jumpSize + deviation, inL, at, n);
      Copy(inputR, fftSize - jumpSize + deviation, inR, at, n);
      assert inputL[..] == Write(s0.windowL, fftSize - jumpSize + deviation, inL[at..at + n]);
      assert inputR[..] == Write(s0.windowR, fftSize - jumpSize + deviation, inR[at..at + n]);
      deviation := deviation + n;
      assert Snapshot() == Ingest(c, s0, inL[at..at + n], inR[at..at + n]);
    }

    /** One pass of the `run` loop: the output stage of the build, the
        input append, and the hop cycle when the hop is complete. */
    method Block(effect: Effect, build: Build, inL: array<real>, inR: array<real>,
                 outL: array<real>, outR: array<real>, outC: array<real>, at: nat, n: nat)
      requires Valid() && Fits(build) && 0 < n && deviation + n <= jumpSize
      requires Ports(outL, outR, outC, at + n) && Inputs(inL, inR, outL, outR, outC, at + n)
      modifies this`deviation, Storage(), outL, outR, outC
      ensures Valid()
      ensures Snapshot() == SubBlock(Settings(), plans, old(Snapshot()), inL[at..at + n], inR[at..at + n])
      ensures outL[..] == Port(effect, 0, old(outL[..]), at, Emit(Settings(), old(Snapshot()), n))
      ensures outR[..] == Port(effect, 1, old(outR[..]), at, Emit(Settings(), old(Snapshot()), n))
      ensures outC[..] == Port(effect, 2, old(outC[..]), at, Emit(Settings(), old(Snapshot()), n))
    {
      if build.CBuild? {
        EmitC(effect, outL, outR, outC, at, n);
      } else {
        EmitStoreCenter(effect, outL, outR, outC, at, n);
      }
      Advance(build, inL, inR, at, n);
    }

    /** The second half of a pass: the input append, and the hop cycle
        when the hop is complete. */
    method Advance(build: Build, inL: array<real>, inR: array<real>, at: nat, n: nat)
      requires Valid() && Fits(build) && deviation + n <= jumpSize
      requires at + n <= inL.Length && at + n <= inR.Length && inL !in Storage() && inR !in Storage()
      modifies this`deviation, Storage()
      ensures Valid()
      ensures Snapshot() == SubBlock(Settings(), plans, old(Snapshot()), inL[at..at + n], inR[at..at + n])
    {
      ghost var s0 := Snapshot();
      Append(inL, inR, at, n);
      ghost var s1 := Snapshot();
      assert s1 == Ingest(Settings(), s0, inL[at..at + n], inR[at..at + n]);
      if deviation == jumpSize {
        Cycle(build);
        assert Snapshot() == HopCycle(Settings(), plans, s1);
      }
    }

    /** The instance and the output ports hold what the first `at` input
        samples of xL and xR leave, from state s0 and port contents pL, pR
        and pC. */
    ghost predicate Streamed(effect: Effect, outL: array<real>, outR: array<real>, outC: array<real>,
                             c: Config, f: Fft, s0: State, xL: seq<real>, xR: seq<real>,
                             pL: seq<real>, pR: seq<real>, pC: seq<real>, at: nat)
      reads this, Storage(), outL, outR, outC
      requires Allocated()
    {
      && Framing(c) && Lawful(f) && WellFormed(c, s0) && |xL| == |xR| && at <= |xL|
      && |pL| == outL.Length && |pR| == outR.Length && |pC| == outC.Length
      && at <= outL.Length && at <= outR.Length && at <= outC.Length
      && Snapshot() == Process(c, f, s0, xL[..at], xR[..at]).state
      && outL[..] == Port(effect, 0, pL, 0, Process(c, f, s0, xL[..at], xR[..at]).out)
      && outR[..] == Port(effect, 1, pR, 0, Process(c, f, s0, xL[..at], xR[..at]).out)
      && outC[..] == Port(effect, 2, pC, 0, Process(c, f, s0, xL[..at], xR[..at]).out)
    }

    /** One turn of the `run` loop, stated against `Process`: when the
        instance and the ports hold what the first `at` input samples of xL
        and xR leave, the sub-block of n samples from `at` on makes them
        hold what the first at + n samples leave. */
    method Pass(effect: Effect, build: Build, inL: array<real>, inR: array<real>,
                outL: array<real>, outR: array<real>, outC: array<real>,
                ghost c: Config, ghost f: Fft, ghost s0: State, ghost xL: seq<real>, ghost xR: seq<real>,
                ghost pL: seq<real>, ghost pR: seq<real>, ghost pC: seq<real>, at: nat, n: nat)
      requires Valid() && Fits(build) && Settings() == c && plans == f
      requires |xL| == |xR| && 0 < n && at + n <= |xL| && deviation + n <= jumpSize
      requires Ports(outL, outR, outC, |xL|) && Inputs(inL, inR, outL, outR, outC, |xL|)
      requires xL == inL[..|xL|] && xR == inR[..|xR|]
      requires Streamed(effect, outL, outR, outC, c, f, s0, xL, xR, pL, pR, pC, at)
      modifies this`deviation, Storage(), outL, outR, outC
      ensures Valid()
      ensures Streamed(effect, outL, outR, outC, c, f, s0, xL, xR, pL, pR, pC, at + n)
    {
      ProcessExtend(c, f, s0, xL, xR, at, n);
      assert inL[at..at + n] == xL[at..at + n] && inR[at..at + n] == xR[at..at + n];
      Block(effect, build, inL, inR, outL, outR, outC, at, n);
      PortExtend(effect, 0, c, f, s0, xL, xR, pL, at, n);
      PortExtend(effect, 1, c, f, s0, xL, xR, pR, at, n);
      PortExtend(effect, 2, c, f, s0, xL, xR, pC, at, n);
    }

    /** The sub-block loop of `run`: the input ports are consumed in
        sub-blocks of `min(remaining, jump - deviation)`. */
    method Stream(sampleCount: nat, effect: Effect, build: Build, inL: array<real>, inR: array<real>,
                  outL: array<real>, outR: array<real>, outC: array<real>)
      requires Valid() && Fits(build)
      requires Ports(outL, outR, outC, sampleCount) && Inputs(inL, inR, outL, outR, outC, sampleCount)
      modifies this`deviation, Storage(), outL, outR, outC
      ensures Valid()
      ensures Snapshot() == Process(Settings(), plans, old(Snapshot()), inL[..sampleCount], inR[..sampleCount]).state
      ensures outL[..] == Port(effect, 0, old(outL[..]), 0, Process(Settings(), plans, old(Snapshot()), inL[..sampleCount], inR[..sampleCount]).out)
      ensures outR[..] == Port(effect, 1, old(outR[..]), 0, Process(Settings(), plans, old(Snapshot()), inL[..sampleCount], inR[..sampleCount]).out)
      ensures outC[..] == Port(effect, 2, old(outC[..]), 0, Process(Settings(), plans, old(Snapshot()), inL[..sampleCount], inR[..sampleCount]).out)
    {
      ghost var c, f := Settings(), plans;
      ghost var s0, xL, xR := Snapshot(), inL[..sampleCount], inR[..sampleCount];
      ghost var pL, pR, pC := outL[..], outR[..], outC[..];
      ProcessEmpty(c, f, s0, xL[..0], xR[..0]);
      PortNothing(effect, 0, pL, 0);
      PortNothing(effect, 1, pR, 0);
      PortNothing(effect, 2, pC, 0);
      var at: nat := 0;
      while at < sampleCount
        invariant at <= sampleCount && Valid() && Settings() == c && plans == f
        invariant Streamed(effect, outL, outR, outC, c, f, s0, xL, xR, pL, pR, pC, at)
      {
        var n := if sampleCount - at < jumpSize - deviation then sampleCount - at else jumpSize - deviation;
        ghost var was := at;
        Pass(effect, build, inL, inR, outL, outR, outC, c, f, s0, xL, xR, pL, pR, pC, at, n);
        at := at + n;
        assert xL[..at] == xL[..was + n] && xR[..at] == xR[..was + n];
      }
      assert xL[..at] == inL[..sampleCount] && xR[..at] == inR[..sampleCount];
    }

    /** `run(sample_count, effect)`: the input ports are consumed in
        sub-blocks of `min(remaining, jump - deviation)`; afterwards the
        instance holds the state `Process` gives, each output port holds
        over the first sample_count samples what `BusSample` gives for the
        values `Process` emits and is otherwise unchanged, and the latency
        port, when connected, reports fftSize. */
    method Run(sampleCount: nat, effect: Effect, build: Build, inL: array<real>, inR: array<real>,
               outL: array<real>, outR: array<real>, outC: array<real>, latency: array?<real>)
      requires Valid() && Fits(build)
      requires Ports(outL, outR, outC, sampleCount) && Inputs(inL, inR, outL, outR, outC, sampleCount)
      requires latency != null ==> 1 <= latency.Length && latency !in Storage()
      requires latency != null ==> latency != inL && latency != inR && latency != outL && latency != outR && latency != outC
      modifies this`deviation, Storage(), outL, outR, outC, latency
      ensures Valid()
      ensures Snapshot() == Process(Settings(), plans, old(Snapshot()), inL[..sampleCount], inR[..sampleCount]).state
      ensures outL[..] == Port(effect, 0, old(outL[..]), 0, Process(Settings(), plans, old(Snapshot()), inL[..sampleCount], inR[..sampleCount]).out)
      ensures outR[..] == Port(effect, 1, old(outR[..]), 0, Process(Settings(), plans, old(Snapshot()), inL[..sampleCount], inR[..sampleCount]).out)
      ensures outC[..] == Port(effect, 2, old(outC[..]), 0, Process(Settings(), plans, old(Snapshot()), inL[..sampleCount], inR[..sampleCount]).out)
      ensures latency != null ==> latency[0] == fftSize as real
    {
      Stream(sampleCount, effect, build, inL, inR, outL, outR, outC);
      if latency != null {
        latency[0] := fftSize as real;
      }
    }
  }

  /** The scalar selection loop over the `fftSize / 2 + 1` bins of two
      interleaved spectra: each bin of the result is the left bin when its
      energy is strictly smaller, otherwise the right bin. */
  method SelectBins(out: array<real>, left: array<real>, right: array<real>)
    requires out != left && out != right
    requires left.Length == out.Length && right.Length == out.Length && out.Length % 2 == 0
    modifies out
    ensures Unflatten(out[..]) == Select(Unflatten(left[..]), Unflatten(right[..]))
  {
    var i := 0;
    while i < out.Length / 2
      invariant 0 <= i <= out.Length / 2
      invariant forall k :: 0 <= k < i ==> BinAt(out[..], k) == Winner(BinAt(left[..], k), BinAt(right[..], k))
    {
      var l := Bin(left[2 * i], left[2 * i + 1]);
      var r := Bin(right[2 * i], right[2 * i + 1]);
      var winner := if MagnitudeSquared(l) < MagnitudeSquared(r) then l else r;
      out[2 * i] := winner.re;
      out[2 * i + 1] := winner.im;
      i := i + 1;
    }
  }

  /** The vectorised selection (`Transform2` over all `fftSize + 2`
      floats): every lane is squared, adjacent lanes are summed pairwise
      (`PairwiseAdd`), and the left lane is kept where its sum is smaller
      (`Lt`, `IfThenElse`). */
  method SelectLanes(out: array<real>, left: array<real>, right: array<real>)
    requires out != left && out != right
    requires left.Length == out.Length && right.Length == out.Length && out.Length % 2 == 0
    modifies out
    ensures out[..] == LaneSelect(left[..], right[..])
  {
    var j := 0;
    while j < out.Length
      invariant 0 <= j <= out.Length
      invariant forall k :: 0 <= k < j ==> out[k] == LaneWinner(left[..], right[..], k)
    {
      var p := j - j % 2;
      var leftEnergy := left[p] * left[p] + left[p + 1] * left[p + 1];
      var rightEnergy := right[p] * right[p] + right[p + 1] * right[p + 1];
      out[j] := if leftEnergy < rightEnergy then left[j] else right[j];
      j := j + 1;
    }
  }
}
