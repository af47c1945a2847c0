/** A truth value as a number, and the few facts about division that need spelling out. */
module Arith {
  function Bit(b: bool): (n: nat) {
    if b then 1 else 0
  }

  lemma {:induction false} DivLess(a: nat, m: nat, q: nat)
    requires m > 0 && a < q * m
    ensures a / m < q
  {
    assert a / m * m <= a;
  }

  lemma {:induction false} Times(a: nat, b: nat, m: nat)
    requires a <= b
    ensures a * m <= b * m
  {
    assert (b - a) * m >= 0;
  }

  lemma {:induction false} DivAtLeast(a: nat, m: nat, q: nat)
    requires m > 0 && q * m <= a
    ensures q <= a / m
  {
    var d := a / m;
    assert a < (d + 1) * m;
    if d + 1 <= q {
      Times(d + 1, q, m);
    }
  }

  lemma {:induction false} QuotientIs(a: nat, m: nat, q: nat, r: nat)
    requires m > 0 && a == q * m + r && r < m
    ensures a / m == q && a % m == r
  {
    DivAtLeast(a, m, q);
    DivLess(a, m, q + 1);
  }
}
