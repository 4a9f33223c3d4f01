/** The C library's buffer primitives as the engine uses them on float
    arrays: `memmove` towards the front, `memset`, `memcpy` between distinct
    buffers, the overlap-add `+=` loop (element by element and one vector of
    lanes at a time), and the store a transform makes into its output
    buffer. Each says exactly which elements change and to what.
 */
module Buffers {
  import opened Lanes
  import opened Stft

  /** The contents after `memmove(s, s + j, count)`. */
  function MovedLeft(s: seq<real>, j: nat, count: nat): (r: seq<real>)
    requires j + count <= |s|
    ensures |r| == |s|
  {
    seq(|s|, k requires 0 <= k < |s| => if k < count then s[k + j] else s[k])
  }

  /** The contents after setting count elements from `from` on to v. */
  function Filled(s: seq<real>, from: nat, count: nat, v: real): (r: seq<real>)
    requires from + count <= |s|
    ensures |r| == |s|
  {
    seq(|s|, k requires 0 <= k < |s| => if from <= k < from + count then v else s[k])
  }

  /** The contents after adding t element-wise to the first count elements. */
  function AddPrefix(s: seq<real>, t: seq<real>, count: nat): (r: seq<real>)
    requires count <= |s| && count <= |t|
    ensures |r| == |s|
  {
    seq(|s|, k requires 0 <= k < |s| => if k < count then s[k] + t[k] else s[k])
  }

  function Scaled(s: seq<real>, k: real): (r: seq<real>)
    ensures |r| == |s|
  {
    seq(|s|, i requires 0 <= i < |s| => s[i] * k)
  }

  function Minus(s: seq<real>, t: seq<real>): (r: seq<real>)
    requires |s| == |t|
    ensures |r| == |s|
  {
    seq(|s|, i requires 0 <= i < |s| => s[i] - t[i])
  }

  /** `memmove(a, a + j, count)`: the count elements starting at j move to
      the front; everything from count on keeps its value. */
  method MoveLeft(a: array<real>, j: nat, count: nat)
    requires j + count <= a.Length
    modifies a
    ensures a[..] == MovedLeft(old(a[..]), j, count)
  {
    var i := 0;
    while i < count
      invariant 0 <= i <= count
      invariant forall k :: 0 <= k < a.Length ==> a[k] == if k < i then old(a[k + j]) else old(a[k])
    {
      a[i] := a[i + j];
      i := i + 1;
    }
  }

  /** `memset(a + from, 0, count)` with the value spelled out. */
  method Fill(a: array<real>, from: nat, count: nat, v: real)
    requires from + count <= a.Length
    modifies a
    ensures a[..] == Filled(old(a[..]), from, count, v)
  {
    var i := 0;
    while i < count
      invariant 0 <= i <= count
      invariant forall k :: 0 <= k < a.Length ==> a[k] == if from <= k < from + i then v else old(a[k])
    {
      a[from + i] := v;
      i := i + 1;
    }
  }

  /** `memcpy(dst + at, src + from, count)` between two different buffers. */
  method Copy(dst: array<real>, at: nat, src: array<real>, from: nat, count: nat)
    requires dst != src
    requires at + count <= dst.Length && from + count <= src.Length
    modifies dst
    ensures dst[..] == Write(old(dst[..]), at, src[from..from + count])
  {
    var i := 0;
    while i < count
      invariant 0 <= i <= count
      invariant forall k :: 0 <= k < dst.Length ==>
        dst[k] == if at <= k < at + i then src[k - at + from] else old(dst[k])
    {
      dst[at + i] := src[from + i];
      i := i + 1;
    }
  }

  /** `for (i = 0; i < count; i++) dst[i] += src[i]`. */
  method AddInto(dst: array<real>, src: array<real>, count: nat)
    requires dst != src && count <= dst.Length && count <= src.Length
    modifies dst
    ensures dst[..] == AddPrefix(old(dst[..]), src[..], count)
  {
    var i := 0;
    while i < count
      invariant 0 <= i <= count
      invariant forall k :: 0 <= k < dst.Length ==>
        dst[k] == if k < i then old(dst[k]) + src[k] else old(dst[k])
    {
      dst[i] := dst[i] + src[i];
      i := i + 1;
    }
  }

  /** `for (i = 0; i < count; i += lanes) Store(Load(dst + i) + LoadU(src + i), dst + i)`:
      every vector starting below count is added whole, so the sums reach
      up to Cover(count, lanes). */
  method AddIntoLanes(dst: array<real>, src: array<real>, count: nat, lanes: nat)
    requires dst != src && lanes >= 1
    requires Cover(count, lanes) <= dst.Length && Cover(count, lanes) <= src.Length
    modifies dst
    ensures dst[..] == AddPrefix(old(dst[..]), src[..], Cover(count, lanes))
  {
    var i := 0;
    while i < count
      invariant 0 <= i && i + Cover(count - i, lanes) == Cover(count, lanes)
      invariant forall k :: 0 <= k < dst.Length ==>
        dst[k] == if k < i then old(dst[k]) + src[k] else old(dst[k])
      decreases count - i
    {
      var lane := 0;
      while lane < lanes
        invariant 0 <= lane <= lanes
        invariant forall k :: 0 <= k < dst.Length ==>
          dst[k] == if k < i + lane then old(dst[k]) + src[k] else old(dst[k])
      {
        dst[i + lane] := dst[i + lane] + src[i + lane];
        lane := lane + 1;
      }
      i := i + lanes;
    }
  }

  /** A transform writing its result: the first |s| elements become s. */
  method Store(dst: array<real>, s: seq<real>)
    requires |s| <= dst.Length
    modifies dst
    ensures dst[..] == Write(old(dst[..]), 0, s)
  {
    var i := 0;
    while i < |s|
      invariant 0 <= i <= |s|
      invariant forall k :: 0 <= k < dst.Length ==> dst[k] == if k < i then s[k] else old(dst[k])
    {
      dst[i] := s[i];
      i := i + 1;
    }
  }

  /** The scaling map of the first output stage: `dst[at + i] = src[from + i] * k`
      for i below count (the scalar loop, or `Transform1` with `Mul`). */
  method Scale(dst: array<real>, at: nat, src: array<real>, from: nat, count: nat, k: real)
    requires dst != src
    requires at + count <= dst.Length && from + count <= src.Length
    modifies dst
    ensures dst[..] == Write(old(dst[..]), at, Scaled(src[from..from + count], k))
  {
    var i := 0;
    while i < count
      invariant 0 <= i <= count
      invariant forall j :: 0 <= j < dst.Length ==>
        dst[j] == if at <= j < at + i then src[j - at + from] * k else old(dst[j])
    {
      dst[at + i] := src[from + i] * k;
      i := i + 1;
    }
    ghost var scaled := Scaled(src[from..from + count], k);
    forall j | 0 <= j < dst.Length
      ensures dst[j] == Write(old(dst[..]), at, scaled)[j]
    {
      if at <= j < at + count {
        assert scaled[j - at] == src[j - at + from] * k;
      }
    }
  }

  /** `dst[at + i] = src[from + i] - sub[subAt + i]` for i below count. The
      subtrahend may be dst itself at the same offset (the in-place
      subtraction), since each element is read before it is written. */
  method Difference(dst: array<real>, at: nat, src: array<real>, from: nat, sub: array<real>, subAt: nat, count: nat)
    requires dst != src && (sub == dst ==> subAt == at)
    requires at + count <= dst.Length && from + count <= src.Length && subAt + count <= sub.Length
    modifies dst
    ensures dst[..] == Write(old(dst[..]), at, Minus(src[from..from + count], old(sub[..])[subAt..subAt + count]))
  {
    var i := 0;
    while i < count
      invariant 0 <= i <= count
      invariant forall j :: 0 <= j < dst.Length ==>
        dst[j] == if at <= j < at + i then src[j - at + from] - old(sub[j - at + subAt]) else old(dst[j])
      invariant forall j :: 0 <= j < sub.Length && (sub != dst || j >= at + i) ==> sub[j] == old(sub[j])
    {
      dst[at + i] := src[from + i] - sub[subAt + i];
      i := i + 1;
    }
  }
  /** `memmove` of all but the first j elements is the window slide. */
  lemma {:induction false} MoveIsSlide(s: seq<real>, j: nat)
    requires j <= |s|
    ensures MovedLeft(s, j, |s| - j) == Slide(s, j)
  {
    var r := MovedLeft(s, j, |s| - j);
    forall k | 0 <= k < |s|
      ensures r[k] == Slide(s, j)[k]
    {
    }
  }

  /** On the first n elements, `memmove` of n - j elements followed by
      `memset` of the next j elements to zero is the accumulator shift. */
  lemma {:induction false} MoveFillIsShift(s: seq<real>, n: nat, j: nat)
    requires j <= n <= |s|
    ensures Filled(MovedLeft(s, j, n - j), n - j, j, 0.0)[..n] == ShiftOut(s[..n], j)
  {
    var r := Filled(MovedLeft(s, j, n - j), n - j, j, 0.0)[..n];
    forall k | 0 <= k < n
      ensures r[k] == ShiftOut(s[..n], j)[k]
    {
      if k < n - j {
        assert r[k] == s[k + j];
      }
    }
  }

  /** Adding over at least the first n elements gives, on those n, the
      element-wise sum. */
  lemma {:induction false} AddPrefixSums(s: seq<real>, t: seq<real>, n: nat, m: nat)
    requires n <= m <= |s| && m <= |t|
    ensures AddPrefix(s, t, m)[..n] == AddSamples(s[..n], t[..n])
  {
    var r := AddPrefix(s, t, m)[..n];
    forall k | 0 <= k < n
      ensures r[k] == AddSamples(s[..n], t[..n])[k]
    {
      assert r[k] == s[k] + t[k];
    }
  }
}
