/** The streaming STFT engine as a state machine on values.

    This is the specification the plugin class is proved against: what one
    sub-block does to the engine state and what it emits, what one hop
    (analysis/selection/resynthesis) cycle does, and what a whole `run` call
    does, one sub-block at a time.

    The forward and inverse real FFTs are a foreign library; they are an
    `Fft` value whose two functions are only known to produce the right
    lengths (`Lawful`). No spectral fact about them is used.
 */
module Stft {
  import opened Spectral
  import opened Params

  datatype Effect = Intersect | SymmetricDifference | Upmix

  /** The transform pair: real input of n samples to n/2+1 bins, and bins
      back to n real samples (unnormalised). */
  datatype Fft = Fft(forward: seq<real> -> seq<Bin>, inverse: (nat, seq<Bin>) -> seq<real>)

  ghost predicate Lawful(f: Fft)
  {
    && (forall w :: |f.forward(w)| == |w| / 2 + 1)
    && (forall n: nat, b :: |f.inverse(n, b)| == n)
  }

  /** The engine state that survives between calls: the two analysis
      windows (`input_buffer`), the two residual hops
      (`output_buffer[LEFT/RIGHT]`), the center overlap-add accumulator
      (`output_buffer[CENTER]`) and the position within the current hop. */
  datatype State = State(
    windowL: seq<real>, windowR: seq<real>,
    residualL: seq<real>, residualR: seq<real>,
    center: seq<real>,
    deviation: nat)

  ghost predicate Sized(c: Config, s: State)
  {
    && |s.windowL| == c.fftSize && |s.windowR| == c.fftSize
    && |s.residualL| == c.jump && |s.residualR| == c.jump
    && |s.center| == c.fftSize
    && s.deviation <= c.jump
  }

  /** Between sub-blocks the deviation is strictly inside the hop. */
  ghost predicate WellFormed(c: Config, s: State)
  {
    Sized(c, s) && s.deviation < c.jump
  }

  function Zeros(n: nat): (z: seq<real>)
    ensures |z| == n && forall k :: 0 <= k < n ==> z[k] == 0.0
  {
    seq(n, _ => 0.0)
  }

  /** The state right after activation: every buffer zero, deviation 0. */
  function Initial(c: Config): (s: State)
    requires Framing(c)
    ensures WellFormed(c, s) && s.deviation == 0
  {
    State(Zeros(c.fftSize), Zeros(c.fftSize), Zeros(c.jump), Zeros(c.jump), Zeros(c.fftSize), 0)
  }

  /** `memmove(w, w + j, |w| - j)`: the window moves left by j; the last j
      entries keep their old values until new input overwrites them. */
  function Slide(w: seq<real>, j: nat): (r: seq<real>)
    requires j <= |w|
    ensures |r| == |w|
    ensures forall k :: 0 <= k < |w| - j ==> r[k] == w[k + j]
    ensures forall k :: |w| - j <= k < |w| ==> r[k] == w[k]
  {
    seq(|w|, k requires 0 <= k < |w| => if k < |w| - j then w[k + j] else w[k])
  }

  /** The accumulator shift: the oldest j samples leave, j zeros enter. */
  function ShiftOut(acc: seq<real>, j: nat): (r: seq<real>)
    requires j <= |acc|
    ensures |r| == |acc|
    ensures forall k :: 0 <= k < |acc| - j ==> r[k] == acc[k + j]
    ensures forall k :: |acc| - j <= k < |acc| ==> r[k] == 0.0
  {
    seq(|acc|, k requires 0 <= k < |acc| => if k < |acc| - j then acc[k + j] else 0.0)
  }

  function AddSamples(a: seq<real>, b: seq<real>): (r: seq<real>)
    requires |a| == |b|
    ensures |r| == |a|
  {
    seq(|a|, k requires 0 <= k < |a| => a[k] + b[k])
  }

  /** One analysis/selection/resynthesis cycle, run when a full hop of new
      input has arrived: shift the accumulator, transform both windows, keep
      the quieter bin, transform back, overlap-add, snapshot the oldest hop
      of raw input as the residual source, and slide both windows. */
  function HopCycle(c: Config, f: Fft, s: State): (r: State)
    requires Framing(c) && Lawful(f) && Sized(c, s)
    ensures WellFormed(c, r) && r.deviation == 0
  {
    var j := c.jump;
    var spectrum := Select(f.forward(s.windowL), f.forward(s.windowR));
    var frame := f.inverse(c.fftSize, spectrum);
    State(
      Slide(s.windowL, j), Slide(s.windowR, j),
      s.windowL[..j], s.windowR[..j],
      AddSamples(ShiftOut(s.center, j), frame),
      0)
  }

  /** The three values computed for one sample: the scaled center estimate
      and each raw channel minus it. */
  datatype Out = Out(center: real, left: real, right: real)

  function EmitAt(c: Config, s: State, i: nat): (o: Out)
    requires Framing(c) && WellFormed(c, s) && s.deviation + i < c.jump
    ensures o.left + o.center == s.residualL[s.deviation + i]
    ensures o.right + o.center == s.residualR[s.deviation + i]
  {
    var ctr := s.center[s.deviation + i] * c.norm;
    Out(ctr, s.residualL[s.deviation + i] - ctr, s.residualR[s.deviation + i] - ctr)
  }

  /** What a sub-block of n samples emits, read at the current deviation. */
  function Emit(c: Config, s: State, n: nat): (e: seq<Out>)
    requires Framing(c) && WellFormed(c, s) && s.deviation + n <= c.jump
    ensures |e| == n
  {
    seq(n, i requires 0 <= i < n => EmitAt(c, s, i))
  }

  /** The final value of output port `bus` (0, 1, 2 = left, right, center)
      for one sample: Intersect writes only the center estimate, to port 0;
      SymmetricDifference writes the two residuals to ports 0 and 1;
      Upmix writes the residuals and the center estimate to port 2. A port
      the effect does not write keeps its previous value. */
  function BusSample(effect: Effect, bus: nat, o: Out, prev: real): (r: real)
    ensures r == prev || r == o.center || r == o.left || r == o.right
    ensures bus > 2 || (effect == Intersect && bus != 0) || (effect == SymmetricDifference && bus == 2) ==> r == prev
    ensures effect != Intersect && bus == 0 ==> r == o.left
    ensures effect != Intersect && bus == 1 ==> r == o.right
  {
    match effect
    case Intersect => if bus == 0 then o.center else prev
    case SymmetricDifference => if bus == 0 then o.left else if bus == 1 then o.right else prev
    case Upmix => if bus == 0 then o.left else if bus == 1 then o.right else if bus == 2 then o.center else prev
  }

  /** An output port after the values e were emitted for the samples from
      `at` on: those samples are what BusSample gives, every other sample
      keeps its value. */
  function Port(effect: Effect, bus: nat, prev: seq<real>, at: nat, e: seq<Out>): (r: seq<real>)
    requires at + |e| <= |prev|
    ensures |r| == |prev|
  {
    seq(|prev|, i requires 0 <= i < |prev| =>
      if at <= i < at + |e| then BusSample(effect, bus, e[i - at], prev[i]) else prev[i])
  }

  /** `memcpy(w + at, x, |x|)` on a value. */
  function Write(w: seq<real>, at: nat, x: seq<real>): (r: seq<real>)
    requires at + |x| <= |w|
    ensures |r| == |w|
  {
    seq(|w|, k requires 0 <= k < |w| => if at <= k < at + |x| then x[k - at] else w[k])
  }

  /** New raw input lands at offset fftSize - jump + deviation of each window,
      and the deviation advances by the sub-block length. */
  function Ingest(c: Config, s: State, inL: seq<real>, inR: seq<real>): (t: State)
    requires Framing(c) && WellFormed(c, s)
    requires |inL| == |inR| && s.deviation + |inL| <= c.jump
    ensures Sized(c, t) && t.deviation == s.deviation + |inL|
  {
    var at := c.fftSize - c.jump + s.deviation;
    s.(windowL := Write(s.windowL, at, inL),
       windowR := Write(s.windowR, at, inR),
       deviation := s.deviation + |inL|)
  }

  /** One sub-block: ingest, and run the hop cycle if the hop is complete. */
  function SubBlock(c: Config, f: Fft, s: State, inL: seq<real>, inR: seq<real>): (t: State)
    requires Framing(c) && Lawful(f) && WellFormed(c, s)
    requires |inL| == |inR| && s.deviation + |inL| <= c.jump
    ensures WellFormed(c, t)
  {
    var t := Ingest(c, s, inL, inR);
    if t.deviation == c.jump then HopCycle(c, f, t) else t
  }

  /** `min(remaining, jump - deviation)`: the longest sub-block that does
      not cross a hop boundary. */
  function BlockSize(remaining: nat, room: nat): (n: nat)
    requires remaining >= 1 && room >= 1
    ensures 1 <= n && n <= remaining && n <= room
    ensures n == remaining || n == room
  {
    if remaining < room then remaining else room
  }

  /** The result of a `run` call: the new state, the values emitted for each
      input sample, and how many hop cycles ran. */
  datatype Outcome = Outcome(state: State, out: seq<Out>, cycles: nat)

  /** A `run` call on the given inputs, sub-block by sub-block: nothing is
      left to do on empty input. */
  function Process(c: Config, f: Fft, s: State, inL: seq<real>, inR: seq<real>): (o: Outcome)
    requires Framing(c) && Lawful(f) && WellFormed(c, s) && |inL| == |inR|
    ensures WellFormed(c, o.state) && |o.out| == |inL|
    decreases |inL|, 1
  {
    if |inL| == 0 then Outcome(s, [], 0) else Continue(c, f, s, inL, inR)
  }

  /** One pass of the `run` loop: the first sub-block, emitted at the
      current deviation, then the rest of the input from the new state. */
  function Continue(c: Config, f: Fft, s: State, inL: seq<real>, inR: seq<real>): (o: Outcome)
    requires Framing(c) && Lawful(f) && WellFormed(c, s) && |inL| == |inR| && 0 < |inL|
    ensures WellFormed(c, o.state) && |o.out| == |inL|
    decreases |inL|, 0
  {
    var n := BlockSize(|inL|, c.jump - s.deviation);
    var next := SubBlock(c, f, s, inL[..n], inR[..n]);
    var rest := Process(c, f, next, inL[n..], inR[n..]);
    Outcome(rest.state, Emit(c, s, n) + rest.out,
            rest.cycles + if s.deviation + n == c.jump then 1 else 0)
  }
}
