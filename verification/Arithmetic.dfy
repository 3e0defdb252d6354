/** Powers of two, rounding up, and the facts about products and quotients that several modules use. */
module Arithmetic {
  function Pow2(k: nat): (r: nat)
    ensures r > 0
  {
    if k == 0 then 1 else 2 * Pow2(k - 1)
  }

  /** DIV_ROUND_UP */
  function DivUp(n: nat, d: nat): nat
    requires d > 0
  {
    (n + d - 1) / d
  }

  lemma {:induction false} OneMore(n: nat, d: nat)
    ensures (n + 1) * d == n * d + d
  {
  }

  lemma {:induction false} Distributes(m: nat, n: nat, d: nat)
    ensures (m + n) * d == m * d + n * d
  {
  }

  lemma {:induction false} Scaled(m: int, n: int, d: nat)
    requires m <= n
    ensures m * d <= n * d
  {
    assert (n - m) * d >= 0;
  }

  lemma {:induction false} AtLeastOne(k: int, d: nat)
    ensures k > 0 ==> k * d >= d
  {
  }

  lemma {:induction false} Whole(x: nat, d: nat)
    requires d > 0 && x % d == 0
    ensures x / d * d == x
  {
  }

  lemma {:induction false} DivOf(q: nat, d: nat, r: nat)
    requires r < d
    ensures (q * d + r) / d == q && (q * d + r) % d == r
  {
    var x := q * d + r;
    assert (x / d - q) * d == r - x % d;
    AtLeastOne(x / d - q, d);
    AtLeastOne(q - x / d, d);
  }

  lemma {:induction false} SumAligned(x: nat, y: nat, d: nat)
    requires d > 0 && x % d == 0 && y % d == 0
    ensures (x + y) % d == 0 && (x >= y ==> (x - y) % d == 0)
  {
    var i, j := x / d, y / d;
    Whole(x, d);
    Whole(y, d);
    Distributes(i, j, d);
    DivOf(i + j, d, 0);
    if x >= y {
      if i < j {
        Scaled(i + 1, j, d);
        OneMore(i, d);
      } else {
        Distributes(i - j, j, d);
        DivOf(i - j, d, 0);
      }
    }
  }
}
