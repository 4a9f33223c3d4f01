/** The output ports as values: what the output stage of one sub-block
    leaves on each port, column by column, and how the ports of a whole
    `run` call are built up sub-block by sub-block.
 */
module Output {
  import opened Params
  import opened Stft
  import opened Buffers

  /** The center, left-residual and right-residual columns of emitted values. */
  function Centers(e: seq<Out>): (r: seq<real>)
    ensures |r| == |e|
  {
    seq(|e|, i requires 0 <= i < |e| => e[i].center)
  }

  function Lefts(e: seq<Out>): (r: seq<real>)
    ensures |r| == |e|
  {
    seq(|e|, i requires 0 <= i < |e| => e[i].left)
  }

  function Rights(e: seq<Out>): (r: seq<real>)
    ensures |r| == |e|
  {
    seq(|e|, i requires 0 <= i < |e| => e[i].right)
  }

  /** The output stage computes the emitted values column by column: the
      hop of the accumulator scaled by the normalisation is the center
      column, and each residual hop minus the center column is that
      channel's column. */
  lemma {:induction false} EmitColumns(c: Config, s: State, n: nat)
    requires Framing(c) && WellFormed(c, s) && s.deviation + n <= c.jump
    ensures Scaled(s.center[s.deviation..s.deviation + n], c.norm) == Centers(Emit(c, s, n))
    ensures Minus(s.residualL[s.deviation..s.deviation + n], Centers(Emit(c, s, n))) == Lefts(Emit(c, s, n))
    ensures Minus(s.residualR[s.deviation..s.deviation + n], Centers(Emit(c, s, n))) == Rights(Emit(c, s, n))
  {
    var e := Emit(c, s, n);
    var ctr := Scaled(s.center[s.deviation..s.deviation + n], c.norm);
    forall i | 0 <= i < n
      ensures ctr[i] == Centers(e)[i]
      ensures Minus(s.residualL[s.deviation..s.deviation + n], Centers(e))[i] == Lefts(e)[i]
      ensures Minus(s.residualR[s.deviation..s.deviation + n], Centers(e))[i] == Rights(e)[i]
    {
      assert e[i] == EmitAt(c, s, i);
    }
  }

  /** A port the effect writes holds, over the sub-block, the column whose
      entries are the port's BusSample values. */
  lemma {:induction false} PortIsWrite(effect: Effect, bus: nat, prev: seq<real>, at: nat, e: seq<Out>, x: seq<real>)
    requires at + |e| <= |prev| && |x| == |e|
    requires forall i :: 0 <= i < |e| ==> x[i] == BusSample(effect, bus, e[i], prev[at + i])
    ensures Port(effect, bus, prev, at, e) == Write(prev, at, x)
  {
    var p, w := Port(effect, bus, prev, at, e), Write(prev, at, x);
    forall k | 0 <= k < |prev|
      ensures p[k] == w[k]
    {
      if at <= k < at + |e| {
        assert x[k - at] == BusSample(effect, bus, e[k - at], prev[at + (k - at)]);
      }
    }
  }

  /** A port the effect does not write keeps its contents. */
  lemma {:induction false} PortKeeps(effect: Effect, bus: nat, prev: seq<real>, at: nat, e: seq<Out>)
    requires at + |e| <= |prev|
    requires (effect == Intersect && bus != 0) || (effect == SymmetricDifference && bus == 2)
    ensures Port(effect, bus, prev, at, e) == prev
  {
    var p := Port(effect, bus, prev, at, e);
    forall k | 0 <= k < |prev|
      ensures p[k] == prev[k]
    {
    }
  }

  /** A slice inside a prefix is the same slice of the whole. */
  lemma {:induction false} SliceOfPrefix(w: seq<real>, m: nat, from: nat, count: nat)
    requires from + count <= m <= |w|
    ensures w[..m][from..from + count] == w[from..from + count]
  {
    var l, r := w[..m][from..from + count], w[from..from + count];
    forall k | 0 <= k < count
      ensures l[k] == r[k]
    {
    }
  }

  /** What was just written is read back. */
  lemma {:induction false} WriteRead(w: seq<real>, at: nat, x: seq<real>)
    requires at + |x| <= |w|
    ensures Write(w, at, x)[at..at + |x|] == x
  {
    var r := Write(w, at, x)[at..at + |x|];
    forall k | 0 <= k < |x|
      ensures r[k] == x[k]
    {
    }
  }

  /** A second write over the same range hides the first. */
  lemma {:induction false} WriteOver(w: seq<real>, at: nat, x: seq<real>, y: seq<real>)
    requires at + |x| <= |w| && |y| == |x|
    ensures Write(Write(w, at, x), at, y) == Write(w, at, y)
  {
    var l, r := Write(Write(w, at, x), at, y), Write(w, at, y);
    forall k | 0 <= k < |w|
      ensures l[k] == r[k]
    {
    }
  }

  /** An output stage changes a port only over its own sub-block. */
  lemma {:induction false} PortOutside(effect: Effect, bus: nat, prev: seq<real>, at: nat, e: seq<Out>, i: nat)
    requires at + |e| <= |prev| && i < |prev| && !(at <= i < at + |e|)
    ensures Port(effect, bus, prev, at, e)[i] == prev[i]
  {
  }

  /** Emitting nothing leaves a port as it was. */
  lemma {:induction false} PortNothing(effect: Effect, bus: nat, prev: seq<real>, at: nat)
    requires at <= |prev|
    ensures Port(effect, bus, prev, at, []) == prev
  {
    var p := Port(effect, bus, prev, at, []);
    forall k | 0 <= k < |prev|
      ensures p[k] == prev[k]
    {
    }
  }

  /** Writing the values of a stream's first samples and then those of the
      next samples leaves a port as writing all of them at once. */
  lemma {:induction false} PortThen(effect: Effect, bus: nat, prev: seq<real>, e1: seq<Out>, e2: seq<Out>)
    requires |e1| + |e2| <= |prev|
    ensures Port(effect, bus, Port(effect, bus, prev, 0, e1), |e1|, e2) == Port(effect, bus, prev, 0, e1 + e2)
  {
    var once := Port(effect, bus, prev, 0, e1);
    var lhs, rhs := Port(effect, bus, once, |e1|, e2), Port(effect, bus, prev, 0, e1 + e2);
    forall i | 0 <= i < |prev|
      ensures lhs[i] == rhs[i]
    {
      if i < |e1| {
        assert (e1 + e2)[i] == e1[i];
      } else if i < |e1| + |e2| {
        assert (e1 + e2)[i] == e2[i - |e1|];
      }
    }
  }

  /** What every output stage leaves on the three ports: port 0 gets the
      center column under Intersect and the left column otherwise, port 1
      the right column unless the effect is Intersect, port 2 the center
      column only under Upmix. These are the ports Port describes. */
  lemma {:induction false} StagePorts(effect: Effect, pL: seq<real>, pR: seq<real>, pC: seq<real>, at: nat, e: seq<Out>,
                                      l: seq<real>, r: seq<real>, cc: seq<real>)
    requires at + |e| <= |pL| && at + |e| <= |pR| && at + |e| <= |pC|
    requires l == Write(pL, at, if effect == Intersect then Centers(e) else Lefts(e))
    requires r == if effect == Intersect then pR else Write(pR, at, Rights(e))
    requires cc == if effect == Upmix then Write(pC, at, Centers(e)) else pC
    ensures l == Port(effect, 0, pL, at, e)
    ensures r == Port(effect, 1, pR, at, e)
    ensures cc == Port(effect, 2, pC, at, e)
  {
    match effect {
      case Intersect =>
        PortIsWrite(effect, 0, pL, at, e, Centers(e));
        PortKeeps(effect, 1, pR, at, e);
        PortKeeps(effect, 2, pC, at, e);
      case SymmetricDifference =>
        PortIsWrite(effect, 0, pL, at, e, Lefts(e));
        PortIsWrite(effect, 1, pR, at, e, Rights(e));
        PortKeeps(effect, 2, pC, at, e);
      case Upmix =>
        PortIsWrite(effect, 0, pL, at, e, Lefts(e));
        PortIsWrite(effect, 1, pR, at, e, Rights(e));
        PortIsWrite(effect, 2, pC, at, e, Centers(e));
    }
  }
}
