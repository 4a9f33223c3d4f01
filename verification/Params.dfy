/** Parameter derivation done when the plugin is activated: the two control
    hints (frame size, overlap factor) become the integer frame size, the
    overlap factor, the hop ("jump") size and the normalisation factor.

    Hints are modelled as non-negative reals; the float-to-unsigned
    conversion of the source truncates towards zero, which for a
    non-negative value is `Floor`.
 */
module Params {

  /** The self-contained C build reads a hint as `hint + .5` converted to an
      unsigned integer: round half up. */
  function RoundHint(hint: real): (n: nat)
    requires hint >= 0.0
    ensures n as real <= hint + 0.5 < n as real + 1.0
  {
    (hint + 0.5).Floor
  }

  /** The split C and C++ builds convert the hint directly: truncation. */
  function TruncHint(hint: real): (n: nat)
    requires hint >= 0.0
    ensures n as real <= hint < n as real + 1.0
  {
    hint.Floor
  }

  /** `fft_size = max(1, n)`, then incremented when odd: the least even
      number that is at least max(1, n). */
  function FftSize(n: int): (size: nat)
    ensures size % 2 == 0 && size >= 2
    ensures size >= n
    ensures n >= 2 && n % 2 == 0 ==> size == n
    ensures size <= if n < 1 then 2 else n + 1
  {
    var s := if n > 1 then n else 1;
    if s % 2 != 0 then s + 1 else s
  }

  /** `max(1, min(fft_size, n))` on an integer n: the min/max form of the
      overlap clamp. */
  function OverlapMinMax(n: int, size: nat): int
  {
    var m := if size < n then size else n;
    if 1 > m then 1 else m
  }

  /** `std::clamp(n, 1, fft_size)`, the C++ build's clamp. */
  function OverlapClamp(n: int, size: nat): (r: int)
    requires size >= 1
    ensures 1 <= r <= size
    ensures 1 <= n <= size ==> r == n
  {
    if n < 1 then 1 else if size < n then size else n
  }

  /** Both clamps keep the overlap factor in [1, size], leave an in-range
      request alone, and agree with each other. */
  lemma {:induction false} OverlapClampsAgree(n: int, size: nat)
    requires size >= 1
    ensures OverlapMinMax(n, size) == OverlapClamp(n, size)
    ensures 1 <= OverlapClamp(n, size) <= size
    ensures 1 <= n <= size ==> OverlapClamp(n, size) == n
    ensures n < 1 ==> OverlapClamp(n, size) == 1
    ensures n > size ==> OverlapClamp(n, size) == size
  {
  }

  /** The hop: `fft_size / overlap_factor`, between 1 and the frame size. */
  function JumpSize(size: nat, overlap: nat): (jump: nat)
    requires 1 <= overlap <= size
    ensures 1 <= jump <= size
    ensures jump * overlap <= size < (jump + 1) * overlap
  {
    JumpBounds(size, overlap);
    size / overlap
  }

  lemma {:induction false} JumpBounds(size: nat, overlap: nat)
    requires 1 <= overlap <= size
    ensures 1 <= size / overlap <= size
    ensures (size / overlap) * overlap <= size < (size / overlap + 1) * overlap
  {
    var q := size / overlap;
    var r := size % overlap;
    assert size == q * overlap + r;
    assert q * overlap >= q;
    assert (q + 1) * overlap == q * overlap + overlap;
  }

  /** `1 / (fft_size * overlap_factor)`, in exact arithmetic. */
  function Normalization(size: nat, overlap: nat): (k: real)
    requires size >= 1 && overlap >= 1
    ensures k > 0.0
    ensures k * (size * overlap) as real == 1.0
  {
    1.0 / (size * overlap) as real
  }

  /** The engine parameters fixed at activation. */
  datatype Config = Config(fftSize: nat, overlap: nat, jump: nat, norm: real)

  /** The frame and hop shape the streaming engine relies on. */
  ghost predicate Framing(c: Config)
  {
    c.fftSize >= 2 && c.fftSize % 2 == 0 && 1 <= c.jump <= c.fftSize
  }

  /** What every activation guarantees about its parameters. */
  ghost predicate ValidConfig(c: Config)
  {
    && Framing(c)
    && 1 <= c.overlap <= c.fftSize
    && c.jump == c.fftSize / c.overlap
    && c.norm == 1.0 / (c.fftSize * c.overlap) as real
  }

  /** The parameters computed from the integer-converted hints: frame size
      first, then the overlap factor clamped against it, then the hop and
      the normalisation. */
  function Derive(sizeHint: int, overlapHint: int): (c: Config)
    ensures ValidConfig(c)
    ensures c.fftSize == FftSize(sizeHint)
    ensures 1 <= overlapHint <= c.fftSize ==> c.overlap == overlapHint
    ensures overlapHint > c.fftSize ==> c.overlap == c.fftSize
    ensures overlapHint < 1 ==> c.overlap == 1
  {
    var size := FftSize(sizeHint);
    OverlapClampsAgree(overlapHint, size);
    var overlap := OverlapClamp(overlapHint, size) as nat;
    Config(size, overlap, JumpSize(size, overlap), Normalization(size, overlap))
  }

  /** Examples: a frame-size hint of 7.4 rounds to 7 and is raised to 8;
      an overlap hint of 1000 against a frame of 256 is clamped to 256;
      a zero hint still gives a two-sample frame. */
  lemma {:induction false} DeriveExamples()
    ensures Derive(RoundHint(7.4), RoundHint(3.0)) == Config(8, 3, 2, 1.0 / 24.0)
    ensures Derive(RoundHint(256.0), RoundHint(1000.0)).overlap == 256
    ensures Derive(RoundHint(256.0), RoundHint(1000.0)).jump == 1
    ensures Derive(TruncHint(0.0), TruncHint(0.0)).fftSize == 2
    ensures Derive(TruncHint(0.0), TruncHint(0.0)).jump == 2
  {
    assert RoundHint(7.4) == 7;
    assert RoundHint(3.0) == 3;
    assert RoundHint(256.0) == 256;
    assert RoundHint(1000.0) == 1000;
  }
}
