/** The bitwise operators on unsigned numbers. */
module Bitwise {

  /** C's `a & b`. */
  function And(a: nat, b: nat): nat {
    if a == 0 || b == 0 then 0 else 2 * And(a / 2, b / 2) + if a % 2 == 1 && b % 2 == 1 then 1 else 0
  }

  /** C's `a | b`. */
  function Or(a: nat, b: nat): nat
    decreases a + b
  {
    if a == 0 then b
    else if b == 0 then a
    else 2 * Or(a / 2, b / 2) + if a % 2 == 1 || b % 2 == 1 then 1 else 0
  }

  function Pow2(k: nat): (p: nat)
    ensures p > 0
  {
    if k == 0 then 1 else 2 * Pow2(k - 1)
  }

  lemma Halves(q: nat, p: nat, r: nat)
    ensures (q * (2 * p) + r) / 2 == q * p + r / 2 && (q * (2 * p) + r) % 2 == r % 2
  {
    assert q * (2 * p) == 2 * (q * p);
  }

  /** Masking with the k low bits keeps the remainder by their power. */
  lemma {:induction false} AndMask(q: nat, r: nat, k: nat)
    requires r < Pow2(k)
    ensures And(q * Pow2(k) + r, Pow2(k) - 1) == r
  {
    if k > 0 {
      Halves(q, Pow2(k - 1), r);
      AndMask(q, r / 2, k - 1);
      assert (2 * Pow2(k - 1) - 1) / 2 == Pow2(k - 1) - 1;
    }
  }

  /** Setting a bit above all others adds its power. */
  lemma {:induction false} OrAbove(a: nat, k: nat)
    requires a < Pow2(k)
    ensures Or(a, Pow2(k)) == a + Pow2(k)
  {
    if k > 0 && a > 0 {
      OrAbove(a / 2, k - 1);
    }
  }

  lemma MaskAndSet(q: nat, r: nat, k: nat, j: nat)
    requires r < Pow2(k) <= Pow2(j)
    ensures Or(And(q * Pow2(k) + r, Pow2(k) - 1), Pow2(j)) == r + Pow2(j)
  {
    hide And, Or, Pow2;
    AndMask(q, r, k);
    OrAbove(r, j);
  }

  lemma Powers()
    ensures Pow2(12) == 0x1000 && Pow2(14) == 0x4000 && Pow2(15) == 0x8000
  {
    assert Pow2(4) == 0x10;
    assert Pow2(8) == 0x100;
    assert Pow2(12) == 0x1000;
  }

  /** What the token generator's masks do. */
  lemma MasksAreArithmetic(v: nat)
    ensures Or(And(v, 0x3FFF), 0x8000) == v % 0x4000 + 0x8000
    ensures Or(And(v, 0x0FFF), 0x4000) == v % 0x1000 + 0x4000
  {
    hide And, Or, Pow2;
    Powers();
    MaskAndSet(v / 0x4000, v % 0x4000, 14, 15);
    MaskAndSet(v / 0x1000, v % 0x1000, 12, 14);
  }
}
