/**
 Attention received by a token: sums over heads and query rows, the visibility of a token to
 later queries, and how both behave when the rows come in chunks.
 */
module AttentionSums {
  import opened Text
  import opened Arithmetic

  /** Attention weights of one layer or of some of its query rows, by head, row and key. */
  datatype Tensor = Tensor(heads: nat, queries: nat, keys: nat, at: (nat, nat, nat) -> real)

  type Terms = (nat, nat, nat) -> real

  /** One head's sum over the rows from `a` to `b`. */
  function RowSum(t: Terms, h: nat, a: nat, b: nat, k: nat): real
    requires a <= b
    decreases b
  {
    if a == b then 0.0 else RowSum(t, h, a, b - 1, k) + t(h, b - 1, k)
  }

  function HeadSum(t: Terms, heads: nat, a: nat, b: nat, k: nat): real
    requires a <= b
    decreases heads
  {
    if heads == 0 then 0.0 else HeadSum(t, heads - 1, a, b, k) + RowSum(t, heads - 1, a, b, k)
  }

  lemma {:induction false} RowSumSplit(t: Terms, h: nat, a: nat, b: nat, c: nat, k: nat)
    requires a <= b <= c
    ensures RowSum(t, h, a, c, k) == RowSum(t, h, a, b, k) + RowSum(t, h, b, c, k)
    decreases c
  {
    if b < c {
      RowSumSplit(t, h, a, b, c - 1, k);
    }
  }

  /** Sums over consecutive rows add up. */
  lemma {:induction false} HeadSumSplit(t: Terms, heads: nat, a: nat, b: nat, c: nat, k: nat)
    requires a <= b <= c
    ensures HeadSum(t, heads, a, c, k) == HeadSum(t, heads, a, b, k) + HeadSum(t, heads, b, c, k)
    decreases heads
  {
    if heads > 0 {
      HeadSumSplit(t, heads - 1, a, b, c, k);
      RowSumSplit(t, heads - 1, a, b, c, k);
    }
  }

  /** `u` is `t` seen from row `start`. */
  ghost predicate Shifted(t: Terms, u: Terms, start: nat, n: nat) {
    forall h: nat, i: nat, k: nat | i < n :: u(h, i, k) == t(h, start + i, k)
  }

  lemma {:induction false} RowSumShift(t: Terms, u: Terms, h: nat, start: nat, n: nat, k: nat)
    requires Shifted(t, u, start, n)
    ensures RowSum(u, h, 0, n, k) == RowSum(t, h, start, start + n, k)
    decreases n
  {
    if n > 0 {
      RowSumShift(t, u, h, start, n - 1, k);
      assert u(h, n - 1, k) == t(h, start + (n - 1), k);
    }
  }

  lemma {:induction false} HeadSumShift(t: Terms, u: Terms, heads: nat, start: nat, n: nat, k: nat)
    requires Shifted(t, u, start, n)
    ensures HeadSum(u, heads, 0, n, k) == HeadSum(t, heads, start, start + n, k)
    decreases heads
  {
    if heads > 0 {
      HeadSumShift(t, u, heads - 1, start, n, k);
      RowSumShift(t, u, heads - 1, start, n, k);
    }
  }

  // ---- visibility ----

  /** Query `q` counts towards key `k`: it comes later, within the window, and both are valid. */
  predicate Allowed(window: Option<int>, mask: Option<seq<bool>>, q: nat, k: nat) {
    && k < q && (window.Some? ==> k > q - window.value)
    && (mask.Some? ==> q < |mask.value| && k < |mask.value| && mask.value[q] && mask.value[k])
  }

  /** How many of the rows from `a` to `b` see key `k`. */
  function Seen(window: Option<int>, mask: Option<seq<bool>>, a: nat, b: nat, k: nat): nat
    requires a <= b
    decreases b
  {
    if a == b then 0 else Seen(window, mask, a, b - 1, k) + if Allowed(window, mask, b - 1, k) then 1 else 0
  }

  lemma {:induction false} SeenSplit(window: Option<int>, mask: Option<seq<bool>>, a: nat, b: nat, c: nat, k: nat)
    requires a <= b <= c
    ensures Seen(window, mask, a, c, k) == Seen(window, mask, a, b, k) + Seen(window, mask, b, c, k)
    decreases c
  {
    if b < c {
      SeenSplit(window, mask, a, b, c - 1, k);
    }
  }

  /** Rows after the token, cut off by the window. */
  function Visible(window: Option<int>, n: nat, k: nat): int {
    Max(0, if window.Some? then Min(n - 1 - k, window.value - 1) else n - 1 - k)
  }

  /** Without a mask the count has a closed form. */
  lemma {:induction false} SeenClosed(window: Option<int>, n: nat, k: nat)
    ensures Seen(window, None, 0, n, k) == Visible(window, n, k)
    decreases n
  {
    if n > 0 {
      SeenClosed(window, n - 1, k);
    }
  }

  // ---- masked terms ----

  function Masked(at: Terms, window: Option<int>, mask: Option<seq<bool>>, start: nat): Terms {
    (h: nat, i: nat, k: nat) => if Allowed(window, mask, start + i, k) then at(h, i, k) else 0.0
  }

  ghost predicate UnitTerms(t: Terms) {
    forall h: nat, q: nat, k: nat :: Unit(t(h, q, k))
  }

  lemma {:induction false} RowSumBound(at: Terms, window: Option<int>, mask: Option<seq<bool>>, h: nat, n: nat, k: nat)
    requires UnitTerms(at)
    ensures 0.0 <= RowSum(Masked(at, window, mask, 0), h, 0, n, k) <= Seen(window, mask, 0, n, k) as real
    decreases n
  {
    if n > 0 {
      RowSumBound(at, window, mask, h, n - 1, k);
      assert Unit(at(h, n - 1, k));
    }
  }

  /** The masked mass of a token is at most the number of times it is visible. */
  lemma {:induction false} HeadSumBound(at: Terms, window: Option<int>, mask: Option<seq<bool>>, heads: nat, n: nat, k: nat)
    requires UnitTerms(at)
    ensures 0.0 <= HeadSum(Masked(at, window, mask, 0), heads, 0, n, k) <= (Seen(window, mask, 0, n, k) * heads) as real
    decreases heads
  {
    if heads > 0 {
      HeadSumBound(at, window, mask, heads - 1, n, k);
      RowSumBound(at, window, mask, heads - 1, n, k);
      var s := Seen(window, mask, 0, n, k);
      OneMore(s, heads);
    }
  }

  lemma {:induction false} OneMore(s: int, heads: nat)
    requires heads > 0
    ensures (s * heads) as real == (s * (heads - 1)) as real + s as real
  {
    assert s * heads == s * (heads - 1) + s;
  }
}
