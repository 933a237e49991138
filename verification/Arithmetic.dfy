/** Small arithmetic that several parts of the model share. */
module Arithmetic {

  function Bit(b: bool): nat {
    if b then 1 else 0
  }

  function Min(a: int, b: int): int {
    if a < b then a else b
  }

  function Max(a: int, b: int): int {
    if a < b then b else a
  }

  predicate Unit(x: real) {
    0.0 <= x <= 1.0
  }

  lemma {:induction false} ProductAtLeastZero(a: real, b: real)
    requires a >= 0.0 && b >= 0.0
    ensures a * b >= 0.0
  {
  }

  /** The property passes from `k` to the next number. */
  ghost predicate PassesOn(p: nat -> bool, k: nat) {
    p(k) ==> p(k + 1)
  }

  /** Induction for a property whose definition is better left out of sight. */
  lemma {:induction false} Induct(p: nat -> bool, n: nat)
    requires p(0) && forall k: nat | k < n :: PassesOn(p, k)
    ensures p(n)
    decreases n
  {
    if n > 0 {
      Induct(p, n - 1);
      assert PassesOn(p, n - 1);
    }
  }

  /** A named product, for offsets and flattened indices. */
  function Times(n: nat, size: nat): nat {
    n * size
  }

  lemma {:induction false} TimesNext(n: nat, size: nat)
    ensures Times(n + 1, size) == Times(n, size) + size && Times(0, size) == 0
  {
  }

  lemma {:induction false} TimesGrows(m: nat, n: nat, size: nat)
    requires m <= n
    ensures Times(m, size) <= Times(n, size)
  {
    assert n * size == m * size + (n - m) * size;
  }

  lemma {:induction false} TimesPlus(m: nat, n: nat, size: nat)
    ensures Times(m + n, size) == Times(m, size) + Times(n, size)
  {
  }
}
