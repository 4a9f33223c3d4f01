/** Frequency bins and the per-bin separation rule of the hop cycle.

    A bin is one complex coefficient of a real-input forward transform. The
    engine keeps spectra in the interleaved (re, im) float layout of
    `fftwf_complex`, so this module also defines that layout (Flatten) and
    the lane-wise selection that the vectorised build runs on it.
 */
module Spectral {

  datatype Bin = Bin(re: real, im: real)

  /** Energy of a bin, re^2 + im^2 (`amplitude_squared` / `magnitude_squared`). */
  function MagnitudeSquared(b: Bin): (r: real)
    ensures r >= 0.0
  {
    Square(b.re) + Square(b.im)
  }

  /** One lane multiplied by itself. */
  function Square(x: real): (r: real)
    ensures r >= 0.0
  {
    if x < 0.0 then
      assert x * x == (-x) * (-x);
      x * x
    else
      x * x
  }

  /** The bin kept for the center estimate: the left one when its energy is
      strictly smaller, otherwise (ties included) the right one. */
  function Winner(left: Bin, right: Bin): (w: Bin)
    ensures w == left || w == right
    ensures MagnitudeSquared(w) <= MagnitudeSquared(left)
    ensures MagnitudeSquared(w) <= MagnitudeSquared(right)
    ensures MagnitudeSquared(left) == MagnitudeSquared(right) ==> w == right
  {
    if MagnitudeSquared(left) < MagnitudeSquared(right) then left else right
  }

  /** Bin-by-bin selection over two spectra of the same length. */
  function Select(left: seq<Bin>, right: seq<Bin>): (s: seq<Bin>)
    requires |left| == |right|
    ensures |s| == |left|
  {
    seq(|left|, k requires 0 <= k < |left| => Winner(left[k], right[k]))
  }

  /** Every selected bin comes from the same index of one of the two spectra
      and carries the smaller of the two energies; the left bin is taken
      exactly when it is strictly quieter. */
  lemma {:induction false} SelectIsMinimal(left: seq<Bin>, right: seq<Bin>, k: nat)
    requires |left| == |right| && k < |left|
    ensures Select(left, right)[k] == left[k] || Select(left, right)[k] == right[k]
    ensures MagnitudeSquared(Select(left, right)[k]) <= MagnitudeSquared(left[k])
    ensures MagnitudeSquared(Select(left, right)[k]) <= MagnitudeSquared(right[k])
    ensures (Select(left, right)[k] == left[k] && left[k] != right[k])
            <==> MagnitudeSquared(left[k]) < MagnitudeSquared(right[k])
  {
    var w := Select(left, right)[k];
    assert w == Winner(left[k], right[k]);
  }

  /** The interleaved float layout of a spectrum: bin k occupies floats 2k
      (real part) and 2k+1 (imaginary part). */
  function Flatten(bins: seq<Bin>): (xs: seq<real>)
    ensures |xs| == 2 * |bins| && |xs| % 2 == 0
  {
    seq(2 * |bins|, j requires 0 <= j < 2 * |bins| =>
      if j % 2 == 0 then bins[j / 2].re else bins[j / 2].im)
  }

  /** Reads an interleaved float buffer back as bins. */
  function Unflatten(xs: seq<real>): (bins: seq<Bin>)
    requires |xs| % 2 == 0
    ensures |bins| == |xs| / 2
  {
    seq(|xs| / 2, k requires 0 <= k < |xs| / 2 => BinAt(xs, k))
  }

  /** Bin k of an interleaved float buffer: floats 2k and 2k+1. */
  function BinAt(xs: seq<real>, k: nat): Bin
    requires 2 * k + 1 < |xs|
  {
    Bin(xs[2 * k], xs[2 * k + 1])
  }

  lemma {:induction false} UnflattenFlatten(bins: seq<Bin>)
    ensures Unflatten(Flatten(bins)) == bins
  {
    var xs := Flatten(bins);
    var back := Unflatten(xs);
    forall k | 0 <= k < |bins|
      ensures back[k] == bins[k]
    {
    }
  }

  lemma {:induction false} FlattenUnflatten(xs: seq<real>)
    requires |xs| % 2 == 0
    ensures Flatten(Unflatten(xs)) == xs
  {
    var back := Flatten(Unflatten(xs));
    var bins := Unflatten(xs);
    forall j | 0 <= j < |xs|
      ensures back[j] == xs[j]
    {
      var k := j / 2;
      assert k < |bins| && bins[k] == Bin(xs[2 * k], xs[2 * k + 1]);
      if j % 2 == 0 {
        assert j == 2 * k;
      } else {
        assert j == 2 * k + 1;
      }
    }
  }

  /** The vectorised energy of lane j: every lane is squared, then adjacent
      lanes (2m, 2m+1) are summed pairwise, so both lanes of a bin hold that
      bin's re^2 + im^2. */
  function PairwiseEnergy(xs: seq<real>, j: nat): real
    requires |xs| % 2 == 0 && j < |xs|
  {
    var p := j - j % 2;
    Square(xs[p]) + Square(xs[p + 1])
  }

  /** The vectorised selection: lane j keeps the left lane when the left
      pairwise energy is smaller (`Lt`), otherwise the right lane
      (`IfThenElse`). */
  function LaneSelect(left: seq<real>, right: seq<real>): (s: seq<real>)
    requires |left| == |right| && |left| % 2 == 0
    ensures |s| == |left|
  {
    seq(|left|, j requires 0 <= j < |left| => LaneWinner(left, right, j))
  }

  function LaneWinner(left: seq<real>, right: seq<real>, j: nat): real
    requires |left| == |right| && |left| % 2 == 0 && j < |left|
  {
    if PairwiseEnergy(left, j) < PairwiseEnergy(right, j) then left[j] else right[j]
  }

  /** Every lane of the vectorised selection is the same lane of one of the
      two inputs. */
  lemma {:induction false} LaneSelectFromInputs(left: seq<real>, right: seq<real>)
    requires |left| == |right| && |left| % 2 == 0
    ensures forall j :: 0 <= j < |left| ==>
      LaneSelect(left, right)[j] == left[j] || LaneSelect(left, right)[j] == right[j]
  {
    forall j | 0 <= j < |left|
      ensures LaneSelect(left, right)[j] == left[j] || LaneSelect(left, right)[j] == right[j]
    {
      assert LaneSelect(left, right)[j] == LaneWinner(left, right, j);
    }
  }

  lemma {:induction false} LaneSelectAt(left: seq<Bin>, right: seq<Bin>, k: nat, j: nat)
    requires |left| == |right| && k < |left| && (j == 2 * k || j == 2 * k + 1)
    ensures LaneSelect(Flatten(left), Flatten(right))[j] == Flatten(Select(left, right))[j]
  {
    var fl, fr := Flatten(left), Flatten(right);
    var sel := Select(left, right);
    PairwiseEnergyAt(left, k, j);
    PairwiseEnergyAt(right, k, j);
    FlattenAt(left, k);
    FlattenAt(right, k);
    FlattenAt(sel, k);
    assert LaneSelect(fl, fr)[j] == LaneWinner(fl, fr, j);
    assert sel[k] == Winner(left[k], right[k]);
  }

  /** Where bin k sits in the interleaved layout. */
  lemma {:induction false} FlattenAt(bins: seq<Bin>, k: nat)
    requires k < |bins|
    ensures Flatten(bins)[2 * k] == bins[k].re
    ensures Flatten(bins)[2 * k + 1] == bins[k].im
  {
    assert (2 * k) % 2 == 0 && (2 * k) / 2 == k;
    assert (2 * k + 1) % 2 == 1 && (2 * k + 1) / 2 == k;
  }

  lemma {:induction false} PairwiseEnergyAt(bins: seq<Bin>, k: nat, j: nat)
    requires k < |bins| && (j == 2 * k || j == 2 * k + 1)
    ensures PairwiseEnergy(Flatten(bins), j) == MagnitudeSquared(bins[k])
  {
    assert j % 2 == j - 2 * k;
    FlattenAt(bins, k);
  }

  /** The lane-wise path picks, for every float, the same bin as the scalar
      path: the two agree on the whole interleaved spectrum. */
  lemma {:induction false} LaneSelectAgrees(left: seq<Bin>, right: seq<Bin>)
    requires |left| == |right|
    ensures LaneSelect(Flatten(left), Flatten(right)) == Flatten(Select(left, right))
  {
    var fl, fr := Flatten(left), Flatten(right);
    var lanes := LaneSelect(fl, fr);
    var scalar := Flatten(Select(left, right));
    forall j | 0 <= j < |fl|
      ensures lanes[j] == scalar[j]
    {
      LaneSelectAt(left, right, j / 2, j);
    }
  }
}
