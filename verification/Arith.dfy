/** Euclidean division facts used by the lane padding and the hop counting. */
module Arith {

  lemma {:induction false} MultipleMod(q: nat, m: nat)
    requires m >= 1
    ensures (q * m) % m == 0 && (q * m) / m == q
  {
    DivModUnique(q * m, m, q, 0);
  }

  lemma {:induction false} DivModUnique(x: int, m: int, a: int, b: int)
    requires m >= 1 && x == a * m + b && 0 <= b < m
    ensures x / m == a && x % m == b
  {
    var a', b' := x / m, x % m;
    var d := a - a';
    assert x == a' * m + b' && 0 <= b' < m;
    assert d * m == a * m - a' * m;
    assert d * m == b' - b;
    if d >= 1 {
      MulAtLeast(d, m);
    } else if d <= -1 {
      MulAtLeast(-d, m);
    }
  }

  lemma {:induction false} MulAtLeast(d: int, m: int)
    requires m >= 1 && d >= 1
    ensures d * m >= m
  {
  }
}
