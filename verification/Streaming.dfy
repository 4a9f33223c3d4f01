/** Properties of the engine specification across whole `run` calls:
    how many hop cycles run and where the deviation ends, independence from
    how the caller splits the stream into blocks, and the fixed delay of
    frame-size samples between a raw input sample and the residual plus
    center emitted for it.
 */
module Streaming {
  import opened Params
  import opened Stft
  import opened Arith

  /** k hops of j samples, by repeated addition. */
  function Hops(k: nat, j: nat): nat
  {
    if k == 0 then 0 else j + Hops(k - 1, j)
  }

  lemma {:induction false} HopsIsProduct(k: nat, j: nat)
    ensures Hops(k, j) == k * j
  {
    if k > 0 {
      HopsIsProduct(k - 1, j);
      assert (k - 1) * j + j == k * j;
    }
  }

  /** Every sample fed either completes a hop or stays counted in the
      deviation: the samples of the completed hops plus the deviation grow
      by exactly the samples fed. */
  lemma {:induction false} ProcessAccounts(c: Config, f: Fft, s: State, inL: seq<real>, inR: seq<real>)
    requires Framing(c) && Lawful(f) && WellFormed(c, s) && |inL| == |inR|
    ensures Hops(Process(c, f, s, inL, inR).cycles, c.jump) + Process(c, f, s, inL, inR).state.deviation
         == s.deviation + |inL|
    decreases |inL|
  {
    if |inL| == 0 {
      ProcessEmpty(c, f, s, inL, inR);
    } else {
      var n := BlockSize(|inL|, c.jump - s.deviation);
      var next := SubBlock(c, f, s, inL[..n], inR[..n]);
      ProcessAccounts(c, f, next, inL[n..], inR[n..]);
      var rest := Process(c, f, next, inL[n..], inR[n..]);
      ProcessStep(c, f, s, inL, inR);
      var o := Process(c, f, s, inL, inR);
      assert o.state == rest.state;
      assert Hops(rest.cycles, c.jump) + rest.state.deviation == next.deviation + (|inL| - n);
      if s.deviation + n == c.jump {
        assert next.deviation == 0;
        assert o.cycles == rest.cycles + 1;
        assert Hops(o.cycles, c.jump) == c.jump + Hops(rest.cycles, c.jump);
      } else {
        assert next.deviation == s.deviation + n;
        assert o.cycles == rest.cycles;
      }
    }
  }

  /** One call runs exactly (deviation + sampleCount) / jump hop cycles and
      leaves the deviation at (deviation + sampleCount) % jump. */
  lemma {:induction false} ProcessCounts(c: Config, f: Fft, s: State, inL: seq<real>, inR: seq<real>)
    requires Framing(c) && Lawful(f) && WellFormed(c, s) && |inL| == |inR|
    ensures Process(c, f, s, inL, inR).state.deviation == (s.deviation + |inL|) % c.jump
    ensures Process(c, f, s, inL, inR).cycles == (s.deviation + |inL|) / c.jump
  {
    var o := Process(c, f, s, inL, inR);
    ProcessAccounts(c, f, s, inL, inR);
    HopsIsProduct(o.cycles, c.jump);
    DivModUnique(s.deviation + |inL|, c.jump, o.cycles, o.state.deviation);
  }

  /** Splitting a stream: a call on x ++ y gives the state, emitted values
      and cycle count of a call on x followed by a call on y. */
  function Then(first: Outcome, second: Outcome): Outcome
  {
    Outcome(second.state, first.out + second.out, first.cycles + second.cycles)
  }

  lemma {:induction false} WriteTwice(w: seq<real>, at: nat, x: seq<real>, y: seq<real>)
    requires at + |x| + |y| <= |w|
    ensures Write(Write(w, at, x), at + |x|, y) == Write(w, at, x + y)
  {
    var once := Write(w, at, x);
    assert once[..at + |x|] == w[..at] + x;
    assert once[at + |x| + |y|..] == w[at + |x| + |y|..];
  }

  /** Ingesting x and then y is ingesting x ++ y. */
  lemma {:induction false} IngestSplit(c: Config, s: State, xL: seq<real>, xR: seq<real>, yL: seq<real>, yR: seq<real>)
    requires Framing(c) && WellFormed(c, s)
    requires |xL| == |xR| && |yL| == |yR|
    requires s.deviation + |xL| < c.jump
    requires s.deviation + |xL| + |yL| <= c.jump
    ensures WellFormed(c, Ingest(c, s, xL, xR))
    ensures Ingest(c, s, xL + yL, xR + yR) == Ingest(c, Ingest(c, s, xL, xR), yL, yR)
  {
    var at := c.fftSize - c.jump + s.deviation;
    WriteTwice(s.windowL, at, xL, yL);
    WriteTwice(s.windowR, at, xR, yR);
  }

  /** The values emitted over m + k samples are those over the first m
      followed by those over k read from any state that has advanced by m
      samples and carries the same center and residuals. */
  lemma {:induction false} EmitSplit(c: Config, s: State, t: State, m: nat, k: nat, n: nat)
    requires Framing(c) && WellFormed(c, s) && WellFormed(c, t) && n == m + k
    requires s.deviation + n <= c.jump && t.deviation == s.deviation + m
    requires t.center == s.center && t.residualL == s.residualL && t.residualR == s.residualR
    ensures Emit(c, s, n) == Emit(c, s, m) + Emit(c, t, k)
  {
    var whole := Emit(c, s, n);
    var parts := Emit(c, s, m) + Emit(c, t, k);
    forall i | 0 <= i < n
      ensures whole[i] == parts[i]
    {
      if i >= m {
        assert EmitAt(c, t, i - m) == EmitAt(c, s, i);
      }
    }
  }

  /** A sub-block of x ++ y that does not reach the hop boundary during x is
      the sub-block of x followed by one of y, both in state and output. */
  lemma {:induction false} ExtendSubBlock(c: Config, f: Fft, s: State, xL: seq<real>, xR: seq<real>, yL: seq<real>, yR: seq<real>)
    requires Framing(c) && Lawful(f) && WellFormed(c, s)
    requires |xL| == |xR| && |yL| == |yR|
    requires s.deviation + |xL| < c.jump
    requires s.deviation + |xL| + |yL| <= c.jump
    ensures Ingest(c, s, xL, xR).deviation == s.deviation + |xL|
    ensures WellFormed(c, Ingest(c, s, xL, xR))
    ensures Ingest(c, s, xL, xR).center == s.center
    ensures Ingest(c, s, xL, xR).residualL == s.residualL && Ingest(c, s, xL, xR).residualR == s.residualR
    ensures SubBlock(c, f, s, xL + yL, xR + yR) == SubBlock(c, f, Ingest(c, s, xL, xR), yL, yR)
  {
    IngestSplit(c, s, xL, xR, yL, yR);
  }

  /** Cutting x ++ y after x and k more samples. */
  lemma {:induction false} CutAfter(x: seq<real>, y: seq<real>, k: nat, n: nat)
    requires k <= |y| && n == |x| + k
    ensures (x + y)[..n] == x + y[..k]
    ensures (x + y)[n..] == y[k..]
  {
  }

  /** Cutting x ++ y inside x. */
  lemma {:induction false} CutWithin(x: seq<real>, y: seq<real>, k: nat)
    requires k <= |x|
    ensures (x + y)[..k] == x[..k]
    ensures (x + y)[k..] == x[k..] + y
  {
  }

  /** One step of `Process`: the first sub-block, then the rest. */
  lemma {:induction false} ProcessStep(c: Config, f: Fft, s: State, inL: seq<real>, inR: seq<real>)
    requires Framing(c) && Lawful(f) && WellFormed(c, s) && |inL| == |inR| && |inL| > 0
    ensures var n := BlockSize(|inL|, c.jump - s.deviation);
            var next := SubBlock(c, f, s, inL[..n], inR[..n]);
            Process(c, f, s, inL, inR)
            == Then(Outcome(next, Emit(c, s, n), if s.deviation + n == c.jump then 1 else 0),
                    Process(c, f, next, inL[n..], inR[n..]))
  {
    assert Process(c, f, s, inL, inR) == Continue(c, f, s, inL, inR);
  }

  /** A call on nothing changes nothing. */
  lemma {:induction false} ProcessEmpty(c: Config, f: Fft, s: State, inL: seq<real>, inR: seq<real>)
    requires Framing(c) && Lawful(f) && WellFormed(c, s) && |inL| == |inR| == 0
    ensures Process(c, f, s, inL, inR) == Outcome(s, [], 0)
  {
  }

  /** A call that ends strictly inside the current hop only ingests and
      emits. */
  lemma {:induction false} ProcessInsideHop(c: Config, f: Fft, s: State, xL: seq<real>, xR: seq<real>)
    requires Framing(c) && Lawful(f) && WellFormed(c, s)
    requires |xL| == |xR| && 0 < |xL| && s.deviation + |xL| < c.jump
    ensures Process(c, f, s, xL, xR) == Outcome(Ingest(c, s, xL, xR), Emit(c, s, |xL|), 0)
  {
    var m := |xL|;
    var t := Ingest(c, s, xL, xR);
    ProcessStep(c, f, s, xL, xR);
    assert xL[..m] == xL && xR[..m] == xR;
    ProcessEmpty(c, f, t, xL[m..], xR[m..]);
    assert Emit(c, s, m) + [] == Emit(c, s, m);
  }

  /** A call on x ++ y, where x ends strictly inside the current hop, emits
      for x and then continues as a call on y from the state after x. */
  lemma {:induction false} ProcessAfterPrefix(c: Config, f: Fft, s: State, xL: seq<real>, xR: seq<real>, yL: seq<real>, yR: seq<real>)
    requires Framing(c) && Lawful(f) && WellFormed(c, s)
    requires |xL| == |xR| && |yL| == |yR| && 0 < |xL| && 0 < |yL|
    requires s.deviation + |xL| < c.jump
    ensures WellFormed(c, Ingest(c, s, xL, xR))
    ensures Process(c, f, s, xL + yL, xR + yR)
         == Then(Outcome(Ingest(c, s, xL, xR), Emit(c, s, |xL|), 0), Process(c, f, Ingest(c, s, xL, xR), yL, yR))
  {
    var m := |xL|;
    var t := Ingest(c, s, xL, xR);
    var n' := BlockSize(|yL|, c.jump - t.deviation);
    var yL', yR' := yL[..n'], yR[..n'];
    ExtendSubBlock(c, f, s, xL, xR, yL', yR');
    var next := SubBlock(c, f, t, yL', yR');
    var zL, zR := xL + yL, xR + yR;
    var n := BlockSize(|zL|, c.jump - s.deviation);
    assert n == m + n';
    CutAfter(xL, yL, n', n);
    CutAfter(xR, yR, n', n);
    assert SubBlock(c, f, s, zL[..n], zR[..n]) == next;
    EmitSplit(c, s, t, m, n', n);
    var rest := Process(c, f, next, yL[n'..], yR[n'..]);
    assert Process(c, f, next, zL[n..], zR[n..]) == rest;
    var bump := if s.deviation + n == c.jump then 1 else 0;
    assert bump == if t.deviation + n' == c.jump then 1 else 0;
    ProcessStep(c, f, t, yL, yR);
    var later := Process(c, f, t, yL, yR);
    assert later == Then(Outcome(next, Emit(c, t, n'), bump), rest);
    ProcessStep(c, f, s, zL, zR);
    var whole := Process(c, f, s, zL, zR);
    assert whole == Then(Outcome(next, Emit(c, s, n), bump), rest);
    ConcatAssoc(Emit(c, s, m), Emit(c, t, n'), rest.out);
    var first := Outcome(t, Emit(c, s, m), 0);
    assert whole.state == later.state;
    assert whole.out == first.out + later.out;
    assert whole.cycles == first.cycles + later.cycles;
  }

  lemma {:induction false} ConcatAssoc<T>(a: seq<T>, b: seq<T>, d: seq<T>)
    ensures (a + b) + d == a + (b + d)
  {
  }

  /** The splitting case where x ends strictly inside the current hop. */
  lemma {:induction false} SplitInsideHop(c: Config, f: Fft, s: State, xL: seq<real>, xR: seq<real>, yL: seq<real>, yR: seq<real>)
    requires Framing(c) && Lawful(f) && WellFormed(c, s)
    requires |xL| == |xR| && |yL| == |yR| && 0 < |xL| && 0 < |yL|
    requires s.deviation + |xL| < c.jump
    ensures Process(c, f, s, xL + yL, xR + yR)
         == Then(Process(c, f, s, xL, xR), Process(c, f, Process(c, f, s, xL, xR).state, yL, yR))
  {
    ProcessInsideHop(c, f, s, xL, xR);
    ProcessAfterPrefix(c, f, s, xL, xR, yL, yR);
  }

  /** Block-size independence: feeding x ++ y in one call is the same as
      feeding x and then y, for every split of every stream. */
  lemma {:induction false} ProcessSplit(c: Config, f: Fft, s: State, xL: seq<real>, xR: seq<real>, yL: seq<real>, yR: seq<real>)
    requires Framing(c) && Lawful(f) && WellFormed(c, s)
    requires |xL| == |xR| && |yL| == |yR|
    ensures Process(c, f, s, xL + yL, xR + yR)
         == Then(Process(c, f, s, xL, xR), Process(c, f, Process(c, f, s, xL, xR).state, yL, yR))
    decreases |xL|
  {
    if |xL| == 0 {
      assert xL + yL == yL && xR + yR == xR + yR;
      assert xR + yR == yR;
      ProcessEmpty(c, f, s, xL, xR);
      assert [] + Process(c, f, s, yL, yR).out == Process(c, f, s, yL, yR).out;
    } else if |yL| == 0 {
      assert xL + yL == xL && xR + yR == xR;
      var first := Process(c, f, s, xL, xR);
      ProcessEmpty(c, f, first.state, yL, yR);
      assert first.out + [] == first.out;
    } else if s.deviation + |xL| < c.jump {
      SplitInsideHop(c, f, s, xL, xR, yL, yR);
    } else {
      var room := c.jump - s.deviation;
      var zL, zR := xL + yL, xR + yR;
      var n := room;
      assert BlockSize(|zL|, room) == n && BlockSize(|xL|, room) == n;
      CutWithin(xL, yL, n);
      CutWithin(xR, yR, n);
      var next := SubBlock(c, f, s, xL[..n], xR[..n]);
      assert SubBlock(c, f, s, zL[..n], zR[..n]) == next;
      var rest := Process(c, f, next, xL[n..], xR[n..]);
      ProcessStep(c, f, s, xL, xR);
      var first := Process(c, f, s, xL, xR);
      assert first == Then(Outcome(next, Emit(c, s, n), 1), rest);
      ProcessSplit(c, f, next, xL[n..], xR[n..], yL, yR);
      var second := Process(c, f, rest.state, yL, yR);
      assert Process(c, f, next, zL[n..], zR[n..]) == Then(rest, second);
      ProcessStep(c, f, s, zL, zR);
      var whole := Process(c, f, s, zL, zR);
      assert whole == Then(Outcome(next, Emit(c, s, n), 1), Then(rest, second));
      ConcatAssoc(Emit(c, s, n), rest.out, second.out);
      assert whole.state == second.state;
      assert whole.out == first.out + second.out;
      assert whole.cycles == first.cycles + second.cycles;
    }
  }

  /** A call whose input fits in what is left of the current hop is exactly
      one sub-block. */
  lemma {:induction false} ProcessOneBlock(c: Config, f: Fft, s: State, xL: seq<real>, xR: seq<real>)
    requires Framing(c) && Lawful(f) && WellFormed(c, s)
    requires |xL| == |xR| && 0 < |xL| && s.deviation + |xL| <= c.jump
    ensures Process(c, f, s, xL, xR)
         == Outcome(SubBlock(c, f, s, xL, xR), Emit(c, s, |xL|), if s.deviation + |xL| == c.jump then 1 else 0)
  {
    var m := |xL|;
    ProcessStep(c, f, s, xL, xR);
    assert xL[..m] == xL && xR[..m] == xR;
    var next := SubBlock(c, f, s, xL, xR);
    ProcessEmpty(c, f, next, xL[m..], xR[m..]);
    assert Emit(c, s, m) + [] == Emit(c, s, m);
  }

  /** The `run` loop's step: consuming the next n samples of a stream, where
      n fits in the current hop, runs one sub-block from the state the
      first p samples left and appends what it emits. */
  lemma {:induction false} ProcessExtend(c: Config, f: Fft, s: State, inL: seq<real>, inR: seq<real>, p: nat, n: nat)
    requires Framing(c) && Lawful(f) && WellFormed(c, s)
    requires |inL| == |inR| && 0 < n && p + n <= |inL|
    requires Process(c, f, s, inL[..p], inR[..p]).state.deviation + n <= c.jump
    ensures Process(c, f, s, inL[..p + n], inR[..p + n]).state
         == SubBlock(c, f, Process(c, f, s, inL[..p], inR[..p]).state, inL[p..p + n], inR[p..p + n])
    ensures Process(c, f, s, inL[..p + n], inR[..p + n]).out
         == Process(c, f, s, inL[..p], inR[..p]).out + Emit(c, Process(c, f, s, inL[..p], inR[..p]).state, n)
  {
    assert inL[..p + n] == inL[..p] + inL[p..p + n];
    assert inR[..p + n] == inR[..p] + inR[p..p + n];
    ProcessSplit(c, f, s, inL[..p], inR[..p], inL[p..p + n], inR[p..p + n]);
    ProcessOneBlock(c, f, Process(c, f, s, inL[..p], inR[..p]).state, inL[p..p + n], inR[p..p + n]);
  }

  /** The engine's memory of the raw stream. `histL`/`histR` are everything
      the engine has been fed, preceded by the frame of zeros it starts
      with. The filled part of each window (the first
      fftSize - jump + deviation samples) is the most recent part of the
      history, oldest first, and each residual hop is the hop of history
      that started fftSize + deviation samples ago. */
  ghost predicate Tracks(c: Config, s: State, histL: seq<real>, histR: seq<real>)
    requires Framing(c)
  {
    && Sized(c, s)
    && |histL| == |histR|
    && Mirrors(s.windowL, s.residualL, histL, FilledCount(c, s), s.deviation + c.fftSize, c.jump)
    && Mirrors(s.windowR, s.residualR, histR, FilledCount(c, s), s.deviation + c.fftSize, c.jump)
  }

  /** How many leading window samples hold current input. */
  function FilledCount(c: Config, s: State): nat
    requires Framing(c) && Sized(c, s)
  {
    c.fftSize - c.jump + s.deviation
  }

  /** One channel of `Tracks`: the first `filled` window samples are the
      newest `filled` history samples, and the residual is the `jump`
      samples of history that start `back` samples from its end. */
  ghost predicate Mirrors(w: seq<real>, res: seq<real>, h: seq<real>, filled: nat, back: nat, jump: nat)
  {
    && filled <= |w| && filled <= |h| && jump <= back <= |h| && |res| == jump
    && (forall k :: 0 <= k < filled ==> w[k] == h[|h| - filled + k])
    && (forall k :: 0 <= k < jump ==> res[k] == h[|h| - back + k])
  }

  lemma {:induction false} InitialTracks(c: Config)
    requires Framing(c)
    ensures Tracks(c, Initial(c), Zeros(c.fftSize), Zeros(c.fftSize))
  {
    var z, s := Zeros(c.fftSize), Initial(c);
    assert FilledCount(c, s) == c.fftSize - c.jump;
  }

  /** New input written right after the filled part extends both the
      filled part and the history; the residual is now one block further
      back. */
  lemma {:induction false} IngestMirrors(w: seq<real>, res: seq<real>, h: seq<real>, filled: nat, back: nat, jump: nat, x: seq<real>)
    requires Mirrors(w, res, h, filled, back, jump) && filled + |x| <= |w|
    ensures Mirrors(Write(w, filled, x), res, h + x, filled + |x|, back + |x|, jump)
  {
    var w', h' := Write(w, filled, x), h + x;
    var filled' := filled + |x|;
    forall k | 0 <= k < filled'
      ensures w'[k] == h'[|h'| - filled' + k]
    {
      if k < filled {
        assert w'[k] == w[k] == h[|h| - filled + k];
      } else {
        assert w'[k] == x[k - filled];
      }
    }
    forall k | 0 <= k < jump
      ensures res[k] == h'[|h'| - (back + |x|) + k]
    {
      assert res[k] == h[|h| - back + k];
    }
  }

  lemma {:induction false} IngestTracks(c: Config, s: State, hL: seq<real>, hR: seq<real>, xL: seq<real>, xR: seq<real>)
    requires Framing(c) && WellFormed(c, s) && Tracks(c, s, hL, hR)
    requires |xL| == |xR| && s.deviation + |xL| <= c.jump
    ensures Tracks(c, Ingest(c, s, xL, xR), hL + xL, hR + xR)
  {
    var t := Ingest(c, s, xL, xR);
    assert FilledCount(c, t) == FilledCount(c, s) + |xL|;
    IngestMirrors(s.windowL, s.residualL, hL, FilledCount(c, s), s.deviation + c.fftSize, c.jump, xL);
    IngestMirrors(s.windowR, s.residualR, hR, FilledCount(c, s), s.deviation + c.fftSize, c.jump, xR);
  }

  /** A full window is the last n history samples; sliding it by a hop
      keeps its newest n - j samples in front and hands out its oldest hop
      as the residual, which started n samples ago. */
  lemma {:induction false} HopMirrors(w: seq<real>, res: seq<real>, h: seq<real>, n: nat, j: nat)
    requires 1 <= j <= n && |w| == n && Mirrors(w, res, h, n, n + j, j)
    ensures w == h[|h| - n..]
    ensures Mirrors(Slide(w, j), w[..j], h, n - j, n, j)
  {
    var w' := Slide(w, j);
    forall k | 0 <= k < n - j
      ensures w'[k] == h[|h| - (n - j) + k]
    {
      assert w'[k] == w[k + j] == h[|h| - n + (k + j)];
    }
    forall k | 0 <= k < j
      ensures w[..j][k] == h[|h| - n + k]
    {
      assert w[..j][k] == w[k];
    }
  }

  /** The parts of the state a hop cycle rearranges without transforming. */
  lemma {:induction false} HopCycleMoves(c: Config, f: Fft, t: State)
    requires Framing(c) && Lawful(f) && Sized(c, t)
    ensures HopCycle(c, f, t).windowL == Slide(t.windowL, c.jump)
    ensures HopCycle(c, f, t).windowR == Slide(t.windowR, c.jump)
    ensures HopCycle(c, f, t).residualL == t.windowL[..c.jump]
    ensures HopCycle(c, f, t).residualR == t.windowR[..c.jump]
  {
  }

  /** At a hop boundary the analysis windows hold exactly the last fftSize
      samples of the stream, and the cycle keeps the memory invariant. */
  lemma {:induction false} HopTracks(c: Config, f: Fft, t: State, hL: seq<real>, hR: seq<real>)
    requires Framing(c) && Lawful(f) && Tracks(c, t, hL, hR) && t.deviation == c.jump
    ensures t.windowL == hL[|hL| - c.fftSize..] && t.windowR == hR[|hR| - c.fftSize..]
    ensures Tracks(c, HopCycle(c, f, t), hL, hR)
  {
    var n, j := c.fftSize, c.jump;
    assert FilledCount(c, t) == n;
    HopMirrors(t.windowL, t.residualL, hL, n, j);
    HopMirrors(t.windowR, t.residualR, hR, n, j);
    HopCycleMoves(c, f, t);
    var r := HopCycle(c, f, t);
    assert FilledCount(c, r) == n - j;
  }

  /** A sub-block keeps the memory invariant, with the sub-block's input
      appended to the history. */
  lemma {:induction false} SubBlockTracks(c: Config, f: Fft, s: State, hL: seq<real>, hR: seq<real>, xL: seq<real>, xR: seq<real>)
    requires Framing(c) && Lawful(f) && WellFormed(c, s) && Tracks(c, s, hL, hR)
    requires |xL| == |xR| && s.deviation + |xL| <= c.jump
    ensures Tracks(c, SubBlock(c, f, s, xL, xR), hL + xL, hR + xR)
  {
    var t := Ingest(c, s, xL, xR);
    IngestTracks(c, s, hL, hR, xL, xR);
    if t.deviation == c.jump {
      HopTracks(c, f, t, hL + xL, hR + xR);
    }
  }

  /** The history after a first block of a call, then the rest. */
  lemma {:induction false} Regroup(h: seq<real>, xs: seq<real>, n: nat)
    requires n <= |xs|
    ensures (h + xs[..n]) + xs[n..] == h + xs
    ensures |h + xs[..n]| == |h| + n
  {
    assert xs[..n] + xs[n..] == xs;
  }

  /** Residual plus center of the sample emitted at the current deviation
      is the raw sample fed fftSize samples before the next one. */
  lemma {:induction false} HeadTracks(c: Config, s: State, hL: seq<real>, hR: seq<real>)
    requires Framing(c) && WellFormed(c, s) && Tracks(c, s, hL, hR)
    ensures |hL| >= c.fftSize && |hR| >= c.fftSize
    ensures EmitAt(c, s, 0).left + EmitAt(c, s, 0).center == hL[|hL| - c.fftSize]
    ensures EmitAt(c, s, 0).right + EmitAt(c, s, 0).center == hR[|hR| - c.fftSize]
  {
    var d, back := s.deviation, s.deviation + c.fftSize;
    assert s.residualL[d] == hL[|hL| - back + d];
    assert s.residualR[d] == hR[|hR| - back + d];
  }

  /** The memory invariant is kept from call to call, with everything a
      call is fed appended to the history. */
  lemma {:induction false} ProcessTracks(c: Config, f: Fft, s: State, hL: seq<real>, hR: seq<real>, inL: seq<real>, inR: seq<real>)
    requires Framing(c) && Lawful(f) && WellFormed(c, s) && Tracks(c, s, hL, hR)
    requires |inL| == |inR|
    ensures Tracks(c, Process(c, f, s, inL, inR).state, hL + inL, hR + inR)
    decreases |inL|
  {
    if |inL| == 0 {
      assert hL + inL == hL && hR + inR == hR;
      ProcessEmpty(c, f, s, inL, inR);
    } else {
      var n := BlockSize(|inL|, c.jump - s.deviation);
      var xL, xR := inL[..n], inR[..n];
      var next := SubBlock(c, f, s, xL, xR);
      SubBlockTracks(c, f, s, hL, hR, xL, xR);
      ProcessTracks(c, f, next, hL + xL, hR + xR, inL[n..], inR[n..]);
      Regroup(hL, inL, n);
      Regroup(hR, inR, n);
      ProcessStep(c, f, s, inL, inR);
      assert Process(c, f, s, inL, inR).state == Process(c, f, next, inL[n..], inR[n..]).state;
    }
  }

  /** The first value a call emits is read at the current deviation. */
  lemma {:induction false} ProcessHead(c: Config, f: Fft, s: State, inL: seq<real>, inR: seq<real>)
    requires Framing(c) && Lawful(f) && WellFormed(c, s) && |inL| == |inR| && 0 < |inL|
    ensures Process(c, f, s, inL, inR).out[0] == EmitAt(c, s, 0)
  {
    var n := BlockSize(|inL|, c.jump - s.deviation);
    ProcessStep(c, f, s, inL, inR);
    var rest := Process(c, f, SubBlock(c, f, s, inL[..n], inR[..n]), inL[n..], inR[n..]);
    assert Process(c, f, s, inL, inR).out == Emit(c, s, n) + rest.out;
    assert Emit(c, s, n)[0] == EmitAt(c, s, 0);
  }

  /** Sample i of a call is the first sample of a call on the input from i
      on, made in the state the first i samples leave behind. */
  lemma {:induction false} OutAt(c: Config, f: Fft, s: State, inL: seq<real>, inR: seq<real>, i: nat)
    requires Framing(c) && Lawful(f) && WellFormed(c, s) && |inL| == |inR| && i < |inL|
    ensures WellFormed(c, Process(c, f, s, inL[..i], inR[..i]).state)
    ensures Process(c, f, s, inL, inR).out[i] == EmitAt(c, Process(c, f, s, inL[..i], inR[..i]).state, 0)
  {
    var xL, xR, yL, yR := inL[..i], inR[..i], inL[i..], inR[i..];
    assert xL + yL == inL && xR + yR == inR;
    ProcessSplit(c, f, s, xL, xR, yL, yR);
    var first := Process(c, f, s, xL, xR);
    var second := Process(c, f, first.state, yL, yR);
    ProcessHead(c, f, first.state, yL, yR);
    assert Process(c, f, s, inL, inR).out == first.out + second.out;
  }

  /** The complementarity of the outputs, at the reported latency: for a
      sample fed to a call, residual + center equals the raw sample fed
      fftSize samples earlier, on each channel. */
  lemma {:induction false} ProcessDelays(c: Config, f: Fft, s: State, hL: seq<real>, hR: seq<real>, inL: seq<real>, inR: seq<real>, i: nat)
    requires Framing(c) && Lawful(f) && WellFormed(c, s) && Tracks(c, s, hL, hR)
    requires |inL| == |inR| && i < |inL|
    ensures |hL| >= c.fftSize && |hR| >= c.fftSize
    ensures Process(c, f, s, inL, inR).out[i].left + Process(c, f, s, inL, inR).out[i].center
         == (hL + inL)[|hL| + i - c.fftSize]
    ensures Process(c, f, s, inL, inR).out[i].right + Process(c, f, s, inL, inR).out[i].center
         == (hR + inR)[|hR| + i - c.fftSize]
  {
    var xL, xR := inL[..i], inR[..i];
    OutAt(c, f, s, inL, inR, i);
    var t := Process(c, f, s, xL, xR).state;
    ProcessTracks(c, f, s, hL, hR, xL, xR);
    HeadTracks(c, t, hL + xL, hR + xR);
    PrefixIndex(hL, inL, i, c.fftSize);
    PrefixIndex(hR, inR, i, c.fftSize);
  }

  /** The newest history samples before position i of a call's input. */
  lemma {:induction false} PrefixIndex(h: seq<real>, xs: seq<real>, i: nat, back: nat)
    requires i <= |xs| && 0 < back <= |h|
    ensures (h + xs[..i])[|h + xs[..i]| - back] == (h + xs)[|h| + i - back]
  {
  }

  /** From activation on, with any stream fed in any number of calls:
      residual + center of sample i is the raw sample i - fftSize, or zero
      for the first fftSize samples. The delay equals the latency the
      plugin reports. */
  lemma {:induction false} LatencyFromActivation(c: Config, f: Fft, inL: seq<real>, inR: seq<real>, i: nat)
    requires Framing(c) && Lawful(f) && |inL| == |inR| && i < |inL|
    ensures Process(c, f, Initial(c), inL, inR).out[i].left + Process(c, f, Initial(c), inL, inR).out[i].center
         == if i < c.fftSize then 0.0 else inL[i - c.fftSize]
    ensures Process(c, f, Initial(c), inL, inR).out[i].right + Process(c, f, Initial(c), inL, inR).out[i].center
         == if i < c.fftSize then 0.0 else inR[i - c.fftSize]
  {
    var z := Zeros(c.fftSize);
    InitialTracks(c);
    ProcessDelays(c, f, Initial(c), z, z, inL, inR, i);
    assert |z| + i - c.fftSize == i;
    if i < c.fftSize {
      assert (z + inL)[i] == z[i] && (z + inR)[i] == z[i];
    } else {
      assert (z + inL)[i] == inL[i - c.fftSize] && (z + inR)[i] == inR[i - c.fftSize];
    }
  }
}
