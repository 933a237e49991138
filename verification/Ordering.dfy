/**
 Stable sorting of positions by key, and sums over orderings of positions. All rankings of
 the repository (`sorted` with a key, `argsort(stable=True)`) are instances of `ArgSort`.
 */
module Ordering {

  /** Ascending key, ties by position. */
  predicate Precedes(keys: seq<real>, a: nat, b: nat)
    requires a < |keys| && b < |keys|
  {
    keys[a] < keys[b] || (keys[a] == keys[b] && a < b)
  }

  predicate InRange(order: seq<nat>, n: nat) {
    forall i | 0 <= i < |order| :: order[i] < n
  }

  predicate Distinct(order: seq<nat>) {
    forall i, j | 0 <= i < j < |order| :: order[i] != order[j]
  }

  /** A permutation of the positions below `n`. */
  predicate IsPermutation(order: seq<nat>, n: nat) {
    |order| == n && InRange(order, n) && Distinct(order) && forall p | 0 <= p < n :: p in order
  }

  predicate IsSorted(keys: seq<real>, order: seq<nat>)
    requires InRange(order, |keys|)
  {
    forall i, j | 0 <= i < j < |order| :: Precedes(keys, order[i], order[j])
  }

  /** Insert position `x`, larger than all present ones, behind every key not above its own. */
  function Insert(keys: seq<real>, order: seq<nat>, x: nat): (r: seq<nat>)
    requires InRange(order, |keys|) && x < |keys|
    ensures |r| == |order| + 1 && InRange(r, |keys|)
    ensures forall p :: p in r <==> p in order || p == x
  {
    if order == [] then [x]
    else
      var last := order[|order| - 1];
      assert order == order[..|order| - 1] + [last];
      if keys[last] <= keys[x] then order + [x]
      else Insert(keys, order[..|order| - 1], x) + [last]
  }

  /** The first `n` positions in ascending order of their keys. */
  function SortUpTo(keys: seq<real>, n: nat): (r: seq<nat>)
    requires n <= |keys|
    ensures |r| == n && InRange(r, |keys|)
    ensures forall p :: p in r <==> 0 <= p < n
  {
    if n == 0 then [] else Insert(keys, SortUpTo(keys, n - 1), n - 1)
  }

  function ArgSort(keys: seq<real>): (r: seq<nat>)
    ensures |r| == |keys| && InRange(r, |keys|)
  {
    SortUpTo(keys, |keys|)
  }

  lemma {:induction false} InsertSorted(keys: seq<real>, order: seq<nat>, x: nat)
    requires InRange(order, |keys|) && x < |keys| && IsSorted(keys, order)
    requires forall p | p in order :: p < x
    ensures IsSorted(keys, Insert(keys, order, x))
  {
    if order != [] {
      var n := |order| - 1;
      var last := order[n];
      if keys[last] <= keys[x] {
        forall i | 0 <= i < |order|
          ensures Precedes(keys, order[i], x)
        {
          assert order[i] in order;
          assert i < n ==> Precedes(keys, order[i], last);
        }
      } else {
        var front := order[..n];
        assert forall p | p in front :: p in order;
        InsertSorted(keys, front, x);
        var r := Insert(keys, front, x);
        forall i | 0 <= i < |r|
          ensures Precedes(keys, r[i], last)
        {
          assert r[i] in r;
          if r[i] != x {
            var j :| 0 <= j < |front| && front[j] == r[i];
            assert Precedes(keys, order[j], order[n]);
          }
        }
      }
    }
  }

  lemma {:induction false} SortUpToSorted(keys: seq<real>, n: nat)
    requires n <= |keys|
    ensures IsSorted(keys, SortUpTo(keys, n))
  {
    if n > 0 {
      SortUpToSorted(keys, n - 1);
      InsertSorted(keys, SortUpTo(keys, n - 1), n - 1);
    }
  }

  lemma {:induction false} SortedIsDistinct(keys: seq<real>, order: seq<nat>)
    requires InRange(order, |keys|) && IsSorted(keys, order)
    ensures Distinct(order)
  {
    forall i, j | 0 <= i < j < |order|
      ensures order[i] != order[j]
    {
      assert Precedes(keys, order[i], order[j]);
    }
  }

  /** `ArgSort` is a sorted permutation of the positions. */
  lemma {:induction false} ArgSortCorrect(keys: seq<real>)
    ensures IsPermutation(ArgSort(keys), |keys|) && IsSorted(keys, ArgSort(keys))
  {
    SortUpToSorted(keys, |keys|);
    SortedIsDistinct(keys, ArgSort(keys));
  }

  // ---- orderings as growing sets ----

  /** The positions among the first `k` of an ordering. */
  function Seen(order: seq<nat>, k: nat): set<nat>
    requires k <= |order|
  {
    if k == 0 then {} else Seen(order, k - 1) + {order[k - 1]}
  }

  lemma {:induction k} SeenIff(order: seq<nat>, k: nat)
    requires k <= |order|
    ensures forall p :: p in Seen(order, k) <==> exists i :: 0 <= i < k && order[i] == p
  {
    if k > 0 {
      SeenIff(order, k - 1);
      assert forall i | 0 <= i < k - 1 :: order[i] in Seen(order, k - 1);
    }
  }

  lemma {:induction false} SeenSize(order: seq<nat>, k: nat)
    requires k <= |order| && Distinct(order)
    ensures |Seen(order, k)| == k
  {
    if k > 0 {
      SeenSize(order, k - 1);
      SeenIff(order, k - 1);
    }
  }

  /** All of one permutation is all of another. */
  lemma {:induction false} SeenSame(a: seq<nat>, b: seq<nat>, n: nat)
    requires IsPermutation(a, n) && IsPermutation(b, n)
    ensures Seen(a, n) == Seen(b, n)
  {
    SeenIff(a, n);
    SeenIff(b, n);
    assert forall p | p in Seen(a, n) :: p in b;
    assert forall p | p in Seen(b, n) :: p in a;
  }

  // ---- sums ----

  /** Sum of the values at the first `k` positions of an ordering. */
  function SumAt(v: seq<real>, order: seq<nat>, k: nat): real
    requires InRange(order, |v|) && k <= |order|
  {
    if k == 0 then 0.0 else SumAt(v, order, k - 1) + v[order[k - 1]]
  }

  /** Sum of the values at the positions below `n` that belong to a set. */
  function SumOver(v: seq<real>, s: set<nat>, n: nat): real
    requires n <= |v|
  {
    if n == 0 then 0.0 else SumOver(v, s, n - 1) + (if n - 1 in s then v[n - 1] else 0.0)
  }

  lemma {:induction false} SumOverAdd(v: seq<real>, s: set<nat>, x: nat, n: nat)
    requires n <= |v| && x !in s
    ensures SumOver(v, s + {x}, n) == SumOver(v, s, n) + (if x < n then v[x] else 0.0)
  {
    if n > 0 {
      SumOverAdd(v, s, x, n - 1);
    }
  }

  lemma {:induction false} SumAtIsSumOver(v: seq<real>, order: seq<nat>, k: nat)
    requires InRange(order, |v|) && Distinct(order) && k <= |order|
    ensures SumAt(v, order, k) == SumOver(v, Seen(order, k), |v|)
  {
    if k == 0 {
      SumOverEmpty(v, |v|);
    } else {
      SumAtIsSumOver(v, order, k - 1);
      SeenIff(order, k - 1);
      SumOverAdd(v, Seen(order, k - 1), order[k - 1], |v|);
    }
  }

  lemma {:induction n} SumOverEmpty(v: seq<real>, n: nat)
    requires n <= |v|
    ensures SumOver(v, {}, n) == 0.0
  {
  }

  /** The sum over a permutation does not depend on the order. */
  lemma {:induction false} SumAtPermutation(v: seq<real>, a: seq<nat>, b: seq<nat>)
    requires IsPermutation(a, |v|) && IsPermutation(b, |v|)
    ensures SumAt(v, a, |v|) == SumAt(v, b, |v|)
  {
    SumAtIsSumOver(v, a, |v|);
    SumAtIsSumOver(v, b, |v|);
    SeenSame(a, b, |v|);
  }
}
