/** Vector-lane bookkeeping of the vectorised build.

    A vector holds `lanes` floats; the widest vector any target can use holds
    `maxLanes`. Both are powers of two, so `lanes` divides `maxLanes`. Loops
    that step by a whole vector store past their nominal end, up to the next
    multiple of `lanes`; buffers are padded to a multiple of `maxLanes` so
    that those stores stay inside the allocation.
 */
module Lanes {
  import opened Arith

  /** `pad_floats`: the count rounded up to a multiple of `maxLanes`. */
  function PadFloats(count: nat, maxLanes: nat): (padded: nat)
    requires maxLanes >= 1
    ensures padded % maxLanes == 0
    ensures count <= padded < count + maxLanes
  {
    PadBounds(count, maxLanes);
    (count + (maxLanes - 1)) / maxLanes * maxLanes
  }

  lemma {:induction false} PadBounds(count: nat, maxLanes: nat)
    requires maxLanes >= 1
    ensures ((count + (maxLanes - 1)) / maxLanes * maxLanes) % maxLanes == 0
    ensures count <= (count + (maxLanes - 1)) / maxLanes * maxLanes < count + maxLanes
  {
    var t := count + (maxLanes - 1);
    var q, r := t / maxLanes, t % maxLanes;
    assert t == q * maxLanes + r && 0 <= r < maxLanes;
    MultipleMod(q, maxLanes);
  }

  /** The end of the range a loop `for (i = 0; i < n; i += lanes)` that
      stores a whole vector at `i` touches: n rounded up to a multiple of
      `lanes`. */
  function Cover(n: int, lanes: nat): (end: nat)
    requires lanes >= 1
    ensures n <= end
    ensures n <= 0 ==> end == 0
    ensures n > 0 ==> end < n + lanes
    decreases n
  {
    if n <= 0 then 0 else lanes + Cover(n - lanes, lanes)
  }

  /** The covered range ends at a multiple of `lanes` that is at least n and
      at most every other such multiple: it is the least one. */
  lemma {:induction false} CoverIsLeast(n: int, lanes: nat, t: nat)
    requires lanes >= 1
    requires t * lanes >= n
    ensures n <= Cover(n, lanes) <= t * lanes
    ensures Cover(n, lanes) % lanes == 0
    decreases n
  {
    var q := CoverVectors(n, lanes);
    MultipleMod(q, lanes);
    if n > 0 {
      assert t >= 1;
      assert (t - 1) * lanes == t * lanes - lanes;
      CoverIsLeast(n - lanes, lanes, t - 1);
    }
  }

  /** Whole vectors only: the covered end is q vectors for some q. */
  lemma {:induction false} CoverVectors(n: int, lanes: nat) returns (q: nat)
    requires lanes >= 1
    ensures Cover(n, lanes) == q * lanes
    decreases n
  {
    if n <= 0 {
      q := 0;
    } else {
      var p := CoverVectors(n - lanes, lanes);
      q := p + 1;
      assert (p + 1) * lanes == lanes + p * lanes;
    }
  }

  /** Lane-stepped stores with the current vector width stay inside a
      buffer of `pad_floats(n)` floats, because the width divides the widest
      one. */
  lemma {:induction false} CoverWithinPad(n: nat, lanes: nat, maxLanes: nat)
    requires lanes >= 1 && maxLanes >= 1 && maxLanes % lanes == 0
    ensures n <= Cover(n, lanes) <= PadFloats(n, maxLanes)
  {
    var p := PadFloats(n, maxLanes);
    var q := (n + (maxLanes - 1)) / maxLanes;
    var w := maxLanes / lanes;
    assert p == q * maxLanes;
    assert maxLanes == w * lanes + maxLanes % lanes;
    assert p == (q * w) * lanes;
    CoverIsLeast(n, lanes, q * w);
  }

  /** `zero_fill(array, n)`: stores a vector of zeros at every multiple of
      `lanes` below n, so it zeroes [0, Cover(n, lanes)) and nothing else. */
  method ZeroFill(a: array<real>, n: nat, lanes: nat)
    requires lanes >= 1 && Cover(n, lanes) <= a.Length
    modifies a
    ensures forall k :: 0 <= k < a.Length ==>
      a[k] == if k < Cover(n, lanes) then 0.0 else old(a[k])
  {
    var i := 0;
    while i < n
      invariant 0 <= i && i + Cover(n - i, lanes) == Cover(n, lanes)
      invariant forall k :: 0 <= k < a.Length ==> a[k] == if k < i then 0.0 else old(a[k])
      decreases n - i
    {
      var lane := 0;
      while lane < lanes
        invariant 0 <= lane <= lanes
        invariant forall k :: 0 <= k < a.Length ==> a[k] == if k < i + lane then 0.0 else old(a[k])
      {
        a[i + lane] := 0.0;
        lane := lane + 1;
      }
      i := i + lanes;
    }
  }
}
