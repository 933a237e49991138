/**
 Normalised discounted cumulative gain of a ranking against a relevance vector.

 The discount is any positive, non-increasing weight of the rank; the source uses
 `1 / log2(rank + 2)`, which is also strictly decreasing.
 */
module Ndcg {
  import opened Ordering

  ghost predicate IsDiscount(d: nat -> real) {
    && (forall r: nat :: d(r) > 0.0)
    && (forall r: nat, s: nat | r < s :: d(s) <= d(r))
  }

  ghost predicate StrictlyDecreasing(d: nat -> real) {
    forall r: nat, s: nat | r < s :: d(s) < d(r)
  }

  function Minimum(v: seq<real>): (m: real)
    requires v != []
    ensures m in v && forall i | 0 <= i < |v| :: m <= v[i]
  {
    if |v| == 1 then v[0]
    else
      var m := Minimum(v[..|v| - 1]);
      assert forall i | 0 <= i < |v| - 1 :: v[..|v| - 1][i] == v[i];
      if v[|v| - 1] < m then v[|v| - 1] else m
  }

  /** Relevance shifted to be non-negative, if it is not already. */
  function Shifted(relevance: seq<real>): (r: seq<real>)
    requires relevance != []
    ensures |r| == |relevance|
    ensures forall i | 0 <= i < |r| :: 0.0 <= r[i]
  {
    var m := Minimum(relevance);
    if m < 0.0 then seq(|relevance|, i requires 0 <= i < |relevance| => relevance[i] - m) else relevance
  }

  function Negated(v: seq<real>): (r: seq<real>)
    ensures |r| == |v|
    ensures forall i | 0 <= i < |r| :: r[i] == -v[i]
  {
    seq(|v|, i requires 0 <= i < |v| => -v[i])
  }

  /** Positions by descending score, ties by position. */
  function DescendingOrder(scores: seq<real>): (r: seq<nat>)
    ensures |r| == |scores| && InRange(r, |scores|)
  {
    ArgSort(Negated(scores))
  }

  function Cut(n: nat, k: nat): nat {
    if k < n then k else n
  }

  /** Gain of the first `k` ranks, each discounted by its rank. */
  function Gain(v: seq<real>, order: seq<nat>, d: nat -> real, k: nat): real
    requires InRange(order, |v|) && k <= |order|
  {
    if k == 0 then 0.0 else Gain(v, order, d, k - 1) + v[order[k - 1]] * d(k - 1)
  }

  function NDCG(candidate: seq<nat>, relevance: seq<real>, d: nat -> real, k: nat): real
    requires relevance != [] && InRange(candidate, |relevance|)
  {
    var v := Shifted(relevance);
    var ideal := Gain(v, DescendingOrder(v), d, Cut(|v|, k));
    if ideal == 0.0 then 1.0 else Gain(v, candidate, d, Cut(|candidate|, k)) / ideal
  }

  // ---- the first j of a descending order have the largest sum ----

  ghost predicate IsDescending(v: seq<real>, order: seq<nat>)
    requires InRange(order, |v|)
  {
    forall i, j | 0 <= i < j < |order| :: v[order[i]] >= v[order[j]]
  }

  ghost predicate TiesByPosition(v: seq<real>, order: seq<nat>)
    requires InRange(order, |v|)
  {
    forall i, j | 0 <= i < j < |order| :: v[order[i]] == v[order[j]] ==> order[i] < order[j]
  }

  lemma {:induction false} DescendingOrderCorrect(v: seq<real>)
    ensures IsPermutation(DescendingOrder(v), |v|) && IsDescending(v, DescendingOrder(v))
    ensures TiesByPosition(v, DescendingOrder(v))
  {
    var keys, order := Negated(v), DescendingOrder(v);
    ArgSortCorrect(keys);
    forall i, j | 0 <= i < j < |order|
      ensures v[order[i]] >= v[order[j]] && (v[order[i]] == v[order[j]] ==> order[i] < order[j])
    {
      assert Precedes(keys, order[i], order[j]);
    }
  }

  /** How far each value lies above a threshold, zero if below. */
  function Excess(v: seq<real>, t: real): (r: seq<real>)
    ensures |r| == |v|
    ensures forall i | 0 <= i < |r| :: r[i] == if v[i] > t then v[i] - t else 0.0
  {
    seq(|v|, i requires 0 <= i < |v| => if v[i] > t then v[i] - t else 0.0)
  }

  lemma {:induction false} SumBelowExcess(v: seq<real>, order: seq<nat>, t: real, j: nat)
    requires InRange(order, |v|) && j <= |order|
    ensures SumAt(v, order, j) <= SumAt(Excess(v, t), order, j) + t * j as real
    ensures (forall i | 0 <= i < j :: v[order[i]] >= t)
            ==> SumAt(v, order, j) == SumAt(Excess(v, t), order, j) + t * j as real
  {
    if j > 0 {
      SumBelowExcess(v, order, t, j - 1);
      OneMoreTime(t, j);
    }
  }

  lemma {:induction false} OneMoreTime(t: real, j: nat)
    requires j > 0
    ensures t * j as real == t * (j - 1) as real + t
  {
  }

  lemma {:induction false} NoExcessAfter(v: seq<real>, order: seq<nat>, t: real, j: nat, k: nat)
    requires InRange(order, |v|) && j <= k <= |order|
    requires forall i | j <= i < k :: v[order[i]] <= t
    ensures SumAt(Excess(v, t), order, k) == SumAt(Excess(v, t), order, j)
    decreases k - j
  {
    if j < k {
      NoExcessAfter(v, order, t, j, k - 1);
    }
  }

  lemma {:induction false} PrefixExcessAtMostAll(w: seq<real>, order: seq<nat>, j: nat)
    requires IsPermutation(order, |w|) && j <= |w|
    requires forall p | 0 <= p < |w| :: 0.0 <= w[p]
    ensures SumAt(w, order, j) <= SumAt(w, order, |w|)
  {
    SumAtMonotone(w, order, j, |w|);
  }

  lemma {:induction false} SumAtMonotone(w: seq<real>, order: seq<nat>, j: nat, k: nat)
    requires InRange(order, |w|) && j <= k <= |order|
    requires forall p | 0 <= p < |w| :: 0.0 <= w[p]
    ensures SumAt(w, order, j) <= SumAt(w, order, k)
    decreases k - j
  {
    if j < k {
      SumAtMonotone(w, order, j, k - 1);
    }
  }

  /** No `j` positions have a larger sum than the first `j` of a descending order. */
  lemma {:induction false} TopSumIsLargest(v: seq<real>, ideal: seq<nat>, cand: seq<nat>, j: nat)
    requires IsPermutation(ideal, |v|) && IsPermutation(cand, |v|) && IsDescending(v, ideal) && j <= |v|
    ensures SumAt(v, cand, j) <= SumAt(v, ideal, j)
  {
    if j > 0 {
      var t := v[ideal[j - 1]];
      var w := Excess(v, t);
      SumBelowExcess(v, cand, t, j);
      PrefixExcessAtMostAll(w, cand, j);
      SumAtPermutation(w, cand, ideal);
      NoExcessAfter(v, ideal, t, j, |v|);
      SumBelowExcess(v, ideal, t, j);
    }
  }

  // ---- a truncated rearrangement inequality ----

  /** Difference of the gains, and of the plain sums, of two orderings. */
  function GainGap(v: seq<real>, ideal: seq<nat>, cand: seq<nat>, d: nat -> real, k: nat): real
    requires InRange(ideal, |v|) && InRange(cand, |v|) && k <= |ideal| && k <= |cand|
  {
    Gain(v, ideal, d, k) - Gain(v, cand, d, k)
  }

  function SumGap(v: seq<real>, ideal: seq<nat>, cand: seq<nat>, k: nat): real
    requires InRange(ideal, |v|) && InRange(cand, |v|) && k <= |ideal| && k <= |cand|
  {
    SumAt(v, ideal, k) - SumAt(v, cand, k)
  }

  lemma {:induction false} GapsStep(v: seq<real>, ideal: seq<nat>, cand: seq<nat>, d: nat -> real, k: nat)
    requires InRange(ideal, |v|) && InRange(cand, |v|) && 1 <= k <= |ideal| && k <= |cand|
    ensures var a, b := v[ideal[k - 1]], v[cand[k - 1]];
            && GainGap(v, ideal, cand, d, k) == GainGap(v, ideal, cand, d, k - 1) + a * d(k - 1) - b * d(k - 1)
            && SumGap(v, ideal, cand, k) == SumGap(v, ideal, cand, k - 1) + a - b
  {
  }

  /** By how much the ideal gain exceeds the candidate's, in terms of the prefix sums. */
  lemma {:induction false} GapBound(v: seq<real>, ideal: seq<nat>, cand: seq<nat>, d: nat -> real, k: nat)
    requires IsPermutation(ideal, |v|) && IsPermutation(cand, |v|) && IsDescending(v, ideal)
    requires IsDiscount(d) && 1 <= k <= |v|
    ensures GainGap(v, ideal, cand, d, k) >= d(k - 1) * SumGap(v, ideal, cand, k)
    decreases k
  {
    var a, b := v[ideal[k - 1]], v[cand[k - 1]];
    var g, s := GainGap(v, ideal, cand, d, k - 1), SumGap(v, ideal, cand, k - 1);
    GapsStep(v, ideal, cand, d, k);
    TopSumIsLargest(v, ideal, cand, k - 1);
    var before := if k > 1 then d(k - 2) else d(k - 1);
    if k > 1 {
      GapBound(v, ideal, cand, d, k - 1);
    }
    GapStep(d(k - 1), before, s, SumGap(v, ideal, cand, k), a, b, g);
  }

  /** One step of summation by parts. */
  lemma {:induction false} GapStep(d: real, d': real, before: real, gap: real, a: real, b: real, g: real)
    requires d' >= d && before >= 0.0 && gap == before + a - b && g >= d' * before
    ensures g + a * d - b * d >= d * gap
  {
    Distribute(d, gap, before, a, b);
    Scale(d', d, before);
  }

  lemma {:induction false} Distribute(d: real, gap: real, x: real, a: real, b: real)
    requires gap == x + a - b
    ensures d * gap == d * x + a * d - b * d
  {
    assert gap * d == x * d + a * d - b * d;
  }

  lemma {:induction false} Product(d: real, x: real)
    requires d > 0.0 && x >= 0.0
    ensures d * x >= 0.0 && (d * x == 0.0 <==> x == 0.0)
  {
  }

  lemma {:induction false} Scale(a: real, b: real, x: real)
    requires a >= b && x >= 0.0
    ensures a * x >= b * x
  {
  }

  /** The descending order has the largest discounted gain at every cut-off. */
  lemma {:induction false} IdealIsLargest(v: seq<real>, ideal: seq<nat>, cand: seq<nat>, d: nat -> real, k: nat)
    requires IsPermutation(ideal, |v|) && IsPermutation(cand, |v|) && IsDescending(v, ideal)
    requires IsDiscount(d) && k <= |v|
    ensures Gain(v, cand, d, k) <= Gain(v, ideal, d, k)
  {
    if k > 0 {
      GapBound(v, ideal, cand, d, k);
      TopSumIsLargest(v, ideal, cand, k);
      Product(d(k - 1), SumGap(v, ideal, cand, k));
    }
  }

  lemma {:induction false} GainNonNegative(v: seq<real>, order: seq<nat>, d: nat -> real, k: nat)
    requires InRange(order, |v|) && k <= |order| && IsDiscount(d)
    requires forall i | 0 <= i < |v| :: 0.0 <= v[i]
    ensures 0.0 <= Gain(v, order, d, k)
  {
    if k > 0 {
      GainNonNegative(v, order, d, k - 1);
      Product(d(k - 1), v[order[k - 1]]);
    }
  }

  lemma {:induction false} Ratio(a: real, b: real)
    requires 0.0 <= a <= b && b > 0.0
    ensures 0.0 <= a / b <= 1.0
  {
  }

  /** nDCG lies in [0, 1] for every ranking, relevance vector and cut-off. */
  lemma {:induction false} NdcgBounded(candidate: seq<nat>, relevance: seq<real>, d: nat -> real, k: nat)
    requires relevance != [] && IsPermutation(candidate, |relevance|) && IsDiscount(d)
    ensures 0.0 <= NDCG(candidate, relevance, d, k) <= 1.0
  {
    var v := Shifted(relevance);
    var n := Cut(|v|, k);
    DescendingOrderCorrect(v);
    IdealIsLargest(v, DescendingOrder(v), candidate, d, n);
    GainNonNegative(v, candidate, d, n);
    GainNonNegative(v, DescendingOrder(v), d, n);
    if Gain(v, DescendingOrder(v), d, n) > 0.0 {
      Ratio(Gain(v, candidate, d, n), Gain(v, DescendingOrder(v), d, n));
    }
  }

  // ---- when the ranking is perfect ----

  /** Equal gains under a strictly decreasing discount force equal prefix sums. */
  lemma {:induction false} EqualGainEqualSums(
    v: seq<real>, ideal: seq<nat>, cand: seq<nat>, d: nat -> real, k: nat, j: nat)
    requires IsPermutation(ideal, |v|) && IsPermutation(cand, |v|) && IsDescending(v, ideal)
    requires IsDiscount(d) && StrictlyDecreasing(d) && 1 <= j <= k <= |v|
    requires GainGap(v, ideal, cand, d, k) <= d(k - 1) * SumGap(v, ideal, cand, k)
    ensures j < k ==> SumGap(v, ideal, cand, j) == 0.0
    decreases k
  {
    if j < k {
      GapsStep(v, ideal, cand, d, k);
      TopSumIsLargest(v, ideal, cand, k - 1);
      GapBound(v, ideal, cand, d, k - 1);
      Tight(d(k - 1), d(k - 2), SumGap(v, ideal, cand, k - 1), SumGap(v, ideal, cand, k),
            v[ideal[k - 1]], v[cand[k - 1]], GainGap(v, ideal, cand, d, k - 1));
      if j < k - 1 {
        EqualGainEqualSums(v, ideal, cand, d, k - 1, j);
      }
    }
  }

  /** One step down: a gap no larger than needed leaves no room before it. */
  lemma {:induction false} Tight(d: real, d': real, before: real, gap: real, a: real, b: real, g: real)
    requires d' > d && before >= 0.0 && gap == before + a - b
    requires g + a * d - b * d <= d * gap && g >= d' * before
    ensures before == 0.0 && g <= d' * before
  {
    Distribute(d, gap, before, a, b);
    if before > 0.0 {
      ScaleStrict(d', d, before);
    }
  }

  lemma {:induction false} ScaleStrict(a: real, b: real, x: real)
    requires a > b && x > 0.0
    ensures a * x > b * x
  {
  }

  /** Gains agree exactly if the relevances along the two rankings agree rank by rank. */
  lemma {:induction false} EqualGainIff(v: seq<real>, ideal: seq<nat>, cand: seq<nat>, d: nat -> real, k: nat)
    requires IsPermutation(ideal, |v|) && IsPermutation(cand, |v|) && IsDescending(v, ideal)
    requires IsDiscount(d) && StrictlyDecreasing(d) && k <= |v|
    ensures Gain(v, ideal, d, k) == Gain(v, cand, d, k)
            <==> forall i | 0 <= i < k :: v[ideal[i]] == v[cand[i]]
  {
    if Gain(v, ideal, d, k) == Gain(v, cand, d, k) && k > 0 {
      GapBound(v, ideal, cand, d, k);
      TopSumIsLargest(v, ideal, cand, k);
      var last := SumGap(v, ideal, cand, k);
      Product(d(k - 1), last);
      assert last == 0.0;
      forall i | 0 <= i < k
        ensures v[ideal[i]] == v[cand[i]]
      {
        if i > 0 {
          EqualGainEqualSums(v, ideal, cand, d, k, i);
        }
        EqualGainEqualSums(v, ideal, cand, d, k, i + 1);
        GapsStep(v, ideal, cand, d, i + 1);
        assert SumGap(v, ideal, cand, i) == 0.0 && SumGap(v, ideal, cand, i + 1) == 0.0;
      }
    } else if forall i | 0 <= i < k :: v[ideal[i]] == v[cand[i]] {
      SameValuesSameGain(v, ideal, cand, d, k);
    }
  }

  lemma {:induction k} SameValuesSameGain(v: seq<real>, a: seq<nat>, b: seq<nat>, d: nat -> real, k: nat)
    requires InRange(a, |v|) && InRange(b, |v|) && k <= |a| && k <= |b|
    requires forall i | 0 <= i < k :: v[a[i]] == v[b[i]]
    ensures Gain(v, a, d, k) == Gain(v, b, d, k)
  {
  }

  /** Without any gain, no value counted is above zero. */
  lemma {:induction false} GainZero(v: seq<real>, order: seq<nat>, d: nat -> real, k: nat)
    requires InRange(order, |v|) && k <= |order| && IsDiscount(d)
    requires (forall i | 0 <= i < |v| :: 0.0 <= v[i]) && Gain(v, order, d, k) == 0.0
    ensures forall i | 0 <= i < k :: v[order[i]] == 0.0
    decreases k
  {
    if k > 0 {
      GainNonNegative(v, order, d, k - 1);
      ZeroProduct(v[order[k - 1]], d(k - 1));
      GainZero(v, order, d, k - 1);
    }
  }

  lemma {:induction false} ZeroProduct(a: real, b: real)
    requires a >= 0.0 && b > 0.0
    ensures a * b >= 0.0 && (a * b == 0.0 ==> a == 0.0)
  {
  }

  /** If the first value of a descending order is zero, all are. */
  lemma {:induction false} AllZero(v: seq<real>, order: seq<nat>, p: nat)
    requires IsPermutation(order, |v|) && IsDescending(v, order) && p < |v|
    requires (forall i | 0 <= i < |v| :: 0.0 <= v[i]) && v[order[0]] == 0.0
    ensures v[p] == 0.0
  {
    assert p in order;
    var i :| 0 <= i < |order| && order[i] == p;
    assert i > 0 ==> v[order[0]] >= v[order[i]];
  }

  lemma {:induction false} NothingRelevant(v: seq<real>, ideal: seq<nat>, cand: seq<nat>, d: nat -> real, n: nat)
    requires IsPermutation(ideal, |v|) && IsPermutation(cand, |v|) && IsDescending(v, ideal) && IsDiscount(d)
    requires n <= |v| && (forall i | 0 <= i < |v| :: 0.0 <= v[i]) && Gain(v, ideal, d, n) == 0.0
    ensures forall i | 0 <= i < n :: v[cand[i]] == v[ideal[i]]
  {
    GainZero(v, ideal, d, n);
    forall i | 0 <= i < n
      ensures v[cand[i]] == v[ideal[i]]
    {
      AllZero(v, ideal, cand[i]);
    }
  }

  /** nDCG is 1 exactly if the ranking has the ideal relevance at every rank that counts. */
  lemma {:induction false} NdcgPerfectIff(candidate: seq<nat>, relevance: seq<real>, d: nat -> real, k: nat)
    requires relevance != [] && IsPermutation(candidate, |relevance|)
    requires IsDiscount(d) && StrictlyDecreasing(d)
    ensures var v := Shifted(relevance);
            var ideal := DescendingOrder(v);
            var n := Cut(|v|, k);
            NDCG(candidate, relevance, d, k) == 1.0 <==> forall i | 0 <= i < n :: v[candidate[i]] == v[ideal[i]]
  {
    var v := Shifted(relevance);
    var n := Cut(|v|, k);
    DescendingOrderCorrect(v);
    EqualGainIff(v, DescendingOrder(v), candidate, d, n);
    var g, ideal := Gain(v, candidate, d, n), Gain(v, DescendingOrder(v), d, n);
    if ideal != 0.0 {
      QuotientIsOne(g, ideal);
    } else {
      NothingRelevant(v, DescendingOrder(v), candidate, d, n);
    }
  }

  lemma {:induction false} QuotientIsOne(a: real, b: real)
    requires b != 0.0
    ensures a / b == 1.0 <==> a == b
  {
    assert a / b * b == a;
  }

  // ---- the symmetric form ----

  /** The smallest integer not below `x`. */
  function Ceil(x: real): (c: int)
    ensures c as real >= x > (c - 1) as real
  {
    if x.Floor as real == x then x.Floor else x.Floor + 1
  }

  function TopK(n: nat, ratio: real): (k: nat)
    requires n > 0 && 0.0 < ratio <= 1.0
    ensures 1 <= k <= n
  {
    var c := Ceil(ratio * n as real);
    if c < 1 then 1 else if c < n then c else n
  }

  function SymmetricNDCG(scout: seq<real>, attention: seq<real>, d: nat -> real, k: nat): real
    requires |scout| == |attention| > 0
  {
    (NDCG(DescendingOrder(scout), attention, d, k) + NDCG(DescendingOrder(attention), scout, d, k)) / 2.0
  }

  /** The symmetric form is a symmetric number in [0, 1], and 1 for a score vector against itself. */
  lemma {:induction false} SymmetricNdcgBounded(scout: seq<real>, attention: seq<real>, d: nat -> real, ratio: real)
    requires |scout| == |attention| > 0 && IsDiscount(d) && 0.0 < ratio <= 1.0
    ensures var k := TopK(|scout|, ratio);
            && 0.0 <= SymmetricNDCG(scout, attention, d, k) <= 1.0
            && SymmetricNDCG(scout, attention, d, k) == SymmetricNDCG(attention, scout, d, k)
            && SymmetricNDCG(scout, scout, d, k) == 1.0
  {
    var k := TopK(|scout|, ratio);
    DescendingOrderCorrect(scout);
    DescendingOrderCorrect(attention);
    NdcgBounded(DescendingOrder(scout), attention, d, k);
    NdcgBounded(DescendingOrder(attention), scout, d, k);
    SelfIsPerfect(scout, d, k);
  }

  lemma {:induction false} SelfIsPerfect(scores: seq<real>, d: nat -> real, k: nat)
    requires scores != [] && IsDiscount(d)
    ensures NDCG(DescendingOrder(scores), scores, d, k) == 1.0
  {
    var v := Shifted(scores);
    var own, ideal := DescendingOrder(scores), DescendingOrder(v);
    var n := Cut(|v|, k);
    DescendingOrderCorrect(scores);
    DescendingOrderCorrect(v);
    forall i, j | 0 <= i < j < |own|
      ensures v[own[i]] >= v[own[j]]
    {
      assert scores[own[i]] >= scores[own[j]];
    }
    IdealIsLargest(v, ideal, own, d, n);
    IdealIsLargest(v, own, ideal, d, n);
    if Gain(v, ideal, d, n) != 0.0 {
      QuotientIsOne(Gain(v, own, d, n), Gain(v, ideal, d, n));
    }
  }
}
