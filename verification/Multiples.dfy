/** Multiples of a fixed size. */
module Multiples {

  lemma NextMultiple(i: nat, j: nat, size: nat)
    requires i < j
    ensures i * size + size <= j * size
  {
    assert (i + 1) * size <= j * size;
  }

  // The product as repeated addition, which keeps proofs about ranges of blocks linear.
  ghost function Times(n: nat, size: nat): nat {
    if n == 0 then 0 else Times(n - 1, size) + size
  }

  lemma {:induction false} TimesIsProduct(n: nat, size: nat)
    ensures Times(n, size) == n * size
  {
    if n > 0 {
      TimesIsProduct(n - 1, size);
      assert n * size == (n - 1) * size + size;
    }
  }

  lemma {:induction false} TimesAdds(a: nat, b: nat, size: nat)
    ensures Times(a + b, size) == Times(a, size) + Times(b, size)
  {
    if b > 0 {
      TimesAdds(a, b - 1, size);
    }
  }

  lemma TimesGrows(a: nat, b: nat, size: nat)
    requires a < b
    ensures Times(a, size) + size <= Times(b, size)
  {
    TimesAdds(a + 1, b - a - 1, size);
  }
}
