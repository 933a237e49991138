/**
 Rank-biased overlap of two full rankings: the agreement of their prefixes at every depth,
 weighted geometrically by a persistence `p`.
 */
module RankBiasedOverlap {
  import opened Arithmetic
  import opened Ordering
  import opened Ndcg

  function Pow(p: real, n: nat): real {
    if n == 0 then 1.0 else p * Pow(p, n - 1)
  }

  /** Number of positions that two rankings share within their first `k`. */
  function Overlap(a: seq<nat>, b: seq<nat>, k: nat): nat
    requires k <= |a| && k <= |b|
  {
    |Seen(a, k) * Seen(b, k)|
  }

  /** Shared fraction of the first `k` positions. */
  function Agreement(a: seq<nat>, b: seq<nat>, k: nat): real
    requires 1 <= k <= |a| && k <= |b|
  {
    Overlap(a, b, k) as real / k as real
  }

  /** The agreement at every depth; entry `i` is depth `i + 1`. */
  function Agreements(a: seq<nat>, b: seq<nat>): (x: seq<real>)
    requires |a| == |b|
    ensures |x| == |a| && forall i | 0 <= i < |x| :: x[i] == Agreement(a, b, i + 1)
  {
    seq(|a|, i requires 0 <= i < |a| => Agreement(a, b, i + 1))
  }

  /** Agreements weighted by 1, p, p^2, ... */
  function Weighted(x: seq<real>, p: real, k: nat): real
    requires k <= |x|
  {
    if k == 0 then 0.0 else Weighted(x, p, k - 1) + Pow(p, k - 1) * x[k - 1]
  }

  /** The score of a list of agreements: the weighted sum, and the last one for all depths beyond. */
  function Score(x: seq<real>, p: real): real
    requires x != []
  {
    (1.0 - p) * Weighted(x, p, |x|) + Pow(p, |x|) * x[|x| - 1]
  }

  function RBO(a: seq<nat>, b: seq<nat>, p: real): real
    requires 1 <= |a| == |b|
  {
    Score(Agreements(a, b), p)
  }

  /** One more depth: both sets grow by one position. */
  method Deepen(scout: seq<nat>, attention: seq<nat>, scoutSeen: set<nat>, attentionSeen: set<nat>, depth: nat)
    returns (scoutNext: set<nat>, attentionNext: set<nat>, agreement: real)
    requires 1 <= depth <= |scout| == |attention|
    requires scoutSeen == Seen(scout, depth - 1) && attentionSeen == Seen(attention, depth - 1)
    ensures scoutNext == Seen(scout, depth) && attentionNext == Seen(attention, depth)
    ensures agreement == Agreements(scout, attention)[depth - 1]
  {
    scoutNext := scoutSeen + {scout[depth - 1]};
    attentionNext := attentionSeen + {attention[depth - 1]};
    var overlap := |scoutNext * attentionNext|;
    agreement := overlap as real / depth as real;
  }

  /** The loop of the source: two growing sets and a running sum. */
  method Compute(scout: seq<nat>, attention: seq<nat>, p: real) returns (r: real)
    requires 1 <= |scout| == |attention|
    ensures r == RBO(scout, attention, p)
  {
    ghost var x := Agreements(scout, attention);
    var scoutSeen: set<nat>, attentionSeen: set<nat> := {}, {};
    var weighted, weight, agreement := 0.0, 1.0, 0.0;
    for depth := 1 to |scout| + 1
      invariant scoutSeen == Seen(scout, depth - 1) && attentionSeen == Seen(attention, depth - 1)
      invariant depth > 1 ==> agreement == x[depth - 2]
      invariant weight == Pow(p, depth - 1) && weighted == Weighted(x, p, depth - 1)
    {
      scoutSeen, attentionSeen, agreement := Deepen(scout, attention, scoutSeen, attentionSeen, depth);
      WeightedStep(x, p, depth, weight, agreement);
      weighted := weighted + weight * agreement;
      weight := p * weight;
    }
    ScoreOf(x, p, weighted, weight, agreement);
    r := (1.0 - p) * weighted + weight * agreement;
  }

  lemma {:induction false} WeightedStep(x: seq<real>, p: real, k: nat, weight: real, agreement: real)
    requires 1 <= k <= |x| && weight == Pow(p, k - 1) && agreement == x[k - 1]
    ensures Weighted(x, p, k) == Weighted(x, p, k - 1) + weight * agreement && Pow(p, k) == p * weight
  {
  }

  lemma {:induction false} ScoreOf(x: seq<real>, p: real, weighted: real, weight: real, agreement: real)
    requires x != [] && weighted == Weighted(x, p, |x|) && weight == Pow(p, |x|) && agreement == x[|x| - 1]
    ensures Score(x, p) == (1.0 - p) * weighted + weight * agreement
  {
  }

  /** Rankings by descending score; None is one of the argument errors of the source. */
  method RankBiasedOverlap(scout: seq<real>, attention: seq<real>, p: real) returns (ok: bool, r: real)
    ensures ok <==> |scout| == |attention| > 0 && 0.0 <= p < 1.0
    ensures ok ==> r == RBO(DescendingOrder(scout), DescendingOrder(attention), p)
  {
    if |scout| != |attention| || |scout| == 0 || !(0.0 <= p < 1.0) {
      return false, 0.0;
    }
    ok := true;
    r := Compute(DescendingOrder(scout), DescendingOrder(attention), p);
  }

  // ---- overlap ----

  lemma {:induction false} SubsetSize<T>(s: set<T>, t: set<T>)
    requires s <= t
    ensures |s| <= |t| && (|s| == |t| ==> s == t)
    decreases |t|
  {
    if s != t {
      var x :| x in t && x !in s;
      SubsetSize(s, t - {x});
    }
  }

  lemma {:induction false} OverlapBounded(a: seq<nat>, b: seq<nat>, k: nat)
    requires k <= |a| && k <= |b| && Distinct(a) && Distinct(b)
    ensures Overlap(a, b, k) <= k
    ensures Overlap(a, b, k) == k <==> Seen(a, k) == Seen(b, k)
  {
    SeenSize(a, k);
    SeenSize(b, k);
    SubsetSize(Seen(a, k) * Seen(b, k), Seen(a, k));
    SubsetSize(Seen(a, k) * Seen(b, k), Seen(b, k));
    if Seen(a, k) == Seen(b, k) {
      assert Seen(a, k) * Seen(b, k) == Seen(a, k);
    }
  }

  lemma {:induction false} AgreementBounded(a: seq<nat>, b: seq<nat>, k: nat)
    requires 1 <= k <= |a| && k <= |b| && Distinct(a) && Distinct(b)
    ensures 0.0 <= Agreement(a, b, k) <= 1.0
    ensures Agreement(a, b, k) == 1.0 <==> Seen(a, k) == Seen(b, k)
  {
    OverlapBounded(a, b, k);
    Ratio(Overlap(a, b, k) as real, k as real);
    QuotientIsOne(Overlap(a, b, k) as real, k as real);
  }

  /** Rank-biased overlap does not depend on which ranking comes first. */
  lemma {:induction false} Symmetric(a: seq<nat>, b: seq<nat>, p: real)
    requires 1 <= |a| == |b|
    ensures RBO(a, b, p) == RBO(b, a, p)
  {
    forall k | 1 <= k <= |a|
      ensures Agreement(a, b, k) == Agreement(b, a, k)
    {
      assert Seen(a, k) * Seen(b, k) == Seen(b, k) * Seen(a, k);
    }
    assert Agreements(a, b) == Agreements(b, a);
  }

  // ---- weighted agreement ----

  ghost predicate InUnit(x: seq<real>) {
    forall i | 0 <= i < |x| :: 0.0 <= x[i] <= 1.0
  }

  /** What is missing from full agreement, with the same weights. */
  function Deficit(x: seq<real>, p: real, k: nat): real
    requires k <= |x|
  {
    if k == 0 then 0.0 else Deficit(x, p, k - 1) + Pow(p, k - 1) * (1.0 - x[k - 1])
  }

  lemma {:induction false} PowPositive(p: real, n: nat)
    requires 0.0 <= p < 1.0
    ensures 0.0 <= Pow(p, n) && (p > 0.0 ==> Pow(p, n) > 0.0)
  {
    if n > 0 {
      PowPositive(p, n - 1);
      if p > 0.0 {
        Product(p, Pow(p, n - 1));
      }
    }
  }

  /** 1 + p + ... + p^(k-1). */
  function Geometric(p: real, k: nat): real {
    if k == 0 then 0.0 else Geometric(p, k - 1) + Pow(p, k - 1)
  }

  lemma {:induction false} Telescope(p: real, k: nat)
    ensures (1.0 - p) * Geometric(p, k) == 1.0 - Pow(p, k)
  {
    if k > 0 {
      Telescope(p, k - 1);
      OneMoreTerm(p, Geometric(p, k - 1), Pow(p, k - 1));
    }
  }

  lemma {:induction false} OneMoreTerm(p: real, g: real, q: real)
    ensures (1.0 - p) * (g + q) == (1.0 - p) * g + q - p * q
  {
  }

  lemma {:induction false} Complement(q: real, x: real)
    ensures q * x + q * (1.0 - x) == q
  {
  }

  /** Agreement and deficit together make a geometric sum. */
  lemma {:induction false} WeightedPlusDeficit(x: seq<real>, p: real, k: nat)
    requires k <= |x|
    ensures Weighted(x, p, k) + Deficit(x, p, k) == Geometric(p, k)
  {
    if k > 0 {
      WeightedPlusDeficit(x, p, k - 1);
      Complement(Pow(p, k - 1), x[k - 1]);
    }
  }

  /** The deficit is never negative, and zero exactly if every depth agrees fully. */
  lemma {:induction false} DeficitNonNegative(x: seq<real>, p: real, k: nat)
    requires k <= |x| && InUnit(x) && 0.0 <= p < 1.0
    ensures Deficit(x, p, k) >= 0.0
    ensures 0.0 < p ==> (Deficit(x, p, k) == 0.0 <==> forall i | 0 <= i < k :: x[i] == 1.0)
  {
    if k > 0 {
      DeficitNonNegative(x, p, k - 1);
      PowPositive(p, k - 1);
      var q, y := Pow(p, k - 1), 1.0 - x[k - 1];
      if q > 0.0 {
        Product(q, y);
      }
    }
  }

  lemma {:induction false} WeightedNonNegative(x: seq<real>, p: real, k: nat)
    requires k <= |x| && InUnit(x) && 0.0 <= p < 1.0
    ensures Weighted(x, p, k) >= 0.0
  {
    if k > 0 {
      WeightedNonNegative(x, p, k - 1);
      PowPositive(p, k - 1);
      if Pow(p, k - 1) > 0.0 {
        Product(Pow(p, k - 1), x[k - 1]);
      }
    }
  }

  lemma {:induction false} Difference(c: real, w: real, f: real, g: real)
    requires w + f == g
    ensures c * w == c * g - c * f
  {
  }

  /** If the last depth agrees fully, the score is one minus the weighted deficit. */
  lemma {:induction false} ScoreIsDeficit(x: seq<real>, p: real)
    requires x != [] && x[|x| - 1] == 1.0
    ensures Score(x, p) == 1.0 - (1.0 - p) * Deficit(x, p, |x|)
  {
    var n := |x|;
    WeightedPlusDeficit(x, p, n);
    Telescope(p, n);
    Difference(1.0 - p, Weighted(x, p, n), Deficit(x, p, n), Geometric(p, n));
  }

  lemma {:induction false} ScoreBounded(x: seq<real>, p: real)
    requires x != [] && x[|x| - 1] == 1.0 && InUnit(x) && 0.0 <= p < 1.0
    ensures Pow(p, |x|) <= Score(x, p) <= 1.0
  {
    ScoreIsDeficit(x, p);
    DeficitNonNegative(x, p, |x|);
    Product(1.0 - p, Deficit(x, p, |x|));
    WeightedNonNegative(x, p, |x|);
    Product(1.0 - p, Weighted(x, p, |x|));
  }

  lemma {:induction false} ScorePerfectIff(x: seq<real>, p: real)
    requires x != [] && x[|x| - 1] == 1.0 && InUnit(x) && 0.0 < p < 1.0
    ensures Score(x, p) == 1.0 <==> forall i | 0 <= i < |x| :: x[i] == 1.0
  {
    ScoreIsDeficit(x, p);
    DeficitNonNegative(x, p, |x|);
    Product(1.0 - p, Deficit(x, p, |x|));
  }

  lemma {:induction false} ZeroDeficit(x: seq<real>, k: nat)
    requires 1 <= k <= |x|
    ensures Deficit(x, 0.0, k) == 1.0 - x[0]
  {
    if k > 1 {
      ZeroDeficit(x, k - 1);
      assert Pow(0.0, k - 1) == 0.0;
    } else {
      assert Deficit(x, 0.0, 1) == Deficit(x, 0.0, 0) + Pow(0.0, 0) * (1.0 - x[0]);
    }
  }

  // ---- bounds and equality ----

  /** Two rankings share their positions up to and including rank `i`, as sets. */
  predicate AgreesAt(a: seq<nat>, b: seq<nat>, i: nat)
    requires i < |a| && i < |b|
  {
    Seen(a, i + 1) == Seen(b, i + 1)
  }

  lemma {:induction false} AgreementsInUnit(a: seq<nat>, b: seq<nat>)
    requires |a| == |b| && Distinct(a) && Distinct(b)
    ensures InUnit(Agreements(a, b))
    ensures forall i | 0 <= i < |a| :: Agreements(a, b)[i] == 1.0 <==> AgreesAt(a, b, i)
  {
    forall i | 0 <= i < |a|
      ensures 0.0 <= Agreements(a, b)[i] <= 1.0
      ensures Agreements(a, b)[i] == 1.0 <==> AgreesAt(a, b, i)
    {
      AgreementBounded(a, b, i + 1);
    }
  }

  lemma {:induction false} FullAgreement(a: seq<nat>, b: seq<nat>)
    requires 1 <= |a| && IsPermutation(a, |a|) && IsPermutation(b, |a|)
    ensures InUnit(Agreements(a, b)) && Agreements(a, b)[|a| - 1] == 1.0
  {
    SeenSame(a, b, |a|);
    AgreementsInUnit(a, b);
    assert AgreesAt(a, b, |a| - 1);
  }

  /** Rank-biased overlap of two full rankings lies between p^n and 1. */
  lemma {:induction false} Bounded(a: seq<nat>, b: seq<nat>, p: real)
    requires 1 <= |a| && IsPermutation(a, |a|) && IsPermutation(b, |a|) && 0.0 <= p < 1.0
    ensures Pow(p, |a|) <= RBO(a, b, p) <= 1.0
  {
    FullAgreement(a, b);
    ScoreBounded(Agreements(a, b), p);
  }

  lemma {:induction false} SamePrefixesSameOrder(a: seq<nat>, b: seq<nat>)
    requires |a| == |b| && Distinct(a) && Distinct(b)
    requires forall i | 0 <= i < |a| :: AgreesAt(a, b, i)
    ensures a == b
  {
    forall k | 0 <= k < |a|
      ensures a[k] == b[k]
    {
      assert AgreesAt(a, b, k);
      assert k > 0 ==> AgreesAt(a, b, k - 1);
      SeenIff(a, k);
      assert a[k] in Seen(b, k + 1) && a[k] !in Seen(a, k);
    }
  }

  /** With positive persistence, the overlap is 1 exactly for identical rankings. */
  lemma {:induction false} PerfectIff(a: seq<nat>, b: seq<nat>, p: real)
    requires 1 <= |a| && IsPermutation(a, |a|) && IsPermutation(b, |a|) && 0.0 < p < 1.0
    ensures RBO(a, b, p) == 1.0 <==> a == b
  {
    FullAgreement(a, b);
    ScorePerfectIff(Agreements(a, b), p);
    AgreementsInUnit(a, b);
    if forall i | 0 <= i < |a| :: AgreesAt(a, b, i) {
      SamePrefixesSameOrder(a, b);
    }
  }

  /** With persistence zero, which the source accepts, only the first rank counts. */
  lemma {:induction false} PerfectAtZeroIff(a: seq<nat>, b: seq<nat>)
    requires 1 <= |a| && IsPermutation(a, |a|) && IsPermutation(b, |a|)
    ensures RBO(a, b, 0.0) == 1.0 <==> a[0] == b[0]
  {
    FullAgreement(a, b);
    ScoreAtZero(Agreements(a, b));
    AgreementBounded(a, b, 1);
    FirstSeen(a, b);
  }

  lemma {:induction false} ScoreAtZero(x: seq<real>)
    requires x != [] && x[|x| - 1] == 1.0
    ensures Score(x, 0.0) == x[0]
  {
    ScoreIsDeficit(x, 0.0);
    ZeroDeficit(x, |x|);
  }

  lemma {:induction false} FirstSeen(a: seq<nat>, b: seq<nat>)
    requires a != [] && b != []
    ensures Seen(a, 1) == Seen(b, 1) <==> a[0] == b[0]
  {
    assert Seen(a, 0) == {} && Seen(b, 0) == {};
    assert Seen(a, 1) == {a[0]} && Seen(b, 1) == {b[0]};
    assert a[0] in Seen(a, 1);
  }

  // ---- the smallest overlap ----

  lemma {:induction false} SeenWithin(a: seq<nat>, b: seq<nat>, n: nat, k: nat)
    requires IsPermutation(a, n) && IsPermutation(b, n) && k <= n
    ensures Seen(b, k) <= Seen(a, n)
  {
    forall x | x in Seen(b, k)
      ensures x in Seen(a, n)
    {
      SeenIff(b, k);
      SeenIff(a, n);
      assert x in a;
    }
  }

  lemma {:induction false} UnionSize(s: set<nat>, t: set<nat>)
    ensures |s + t| + |s * t| == |s| + |t|
  {
  }

  /** Two prefixes of more than half of the positions cannot avoid each other. */
  lemma {:induction false} OverlapAtLeast(a: seq<nat>, b: seq<nat>, n: nat, k: nat)
    requires IsPermutation(a, n) && IsPermutation(b, n) && k <= n
    ensures Overlap(a, b, k) >= Max(0, 2 * k - n)
  {
    SeenSize(a, k);
    SeenSize(b, k);
    SeenSize(a, n);
    SeenWithin(a, a, n, k);
    SeenWithin(a, b, n, k);
    UnionSize(Seen(a, k), Seen(b, k));
    SubsetSize(Seen(a, k) + Seen(b, k), Seen(a, n));
  }

  function Reversed(a: seq<nat>): (r: seq<nat>)
    ensures |r| == |a| && forall i | 0 <= i < |a| :: r[i] == a[|a| - 1 - i]
  {
    seq(|a|, i requires 0 <= i < |a| => a[|a| - 1 - i])
  }

  lemma {:induction false} ReversedPermutes(a: seq<nat>, n: nat)
    requires IsPermutation(a, n)
    ensures IsPermutation(Reversed(a), n)
  {
    var r := Reversed(a);
    forall p | 0 <= p < n
      ensures p in r
    {
      assert p in a;
      var i :| 0 <= i < n && a[i] == p;
      assert r[n - 1 - i] == p;
    }
  }

  lemma {:induction false} EndsApart(a: seq<nat>, n: nat, k: nat)
    requires IsPermutation(a, n) && 2 * k <= n
    ensures Seen(a, k) * Seen(Reversed(a), k) == {}
  {
    var r := Reversed(a);
    SeenIff(a, k);
    SeenIff(r, k);
    forall x | x in Seen(a, k)
      ensures x !in Seen(r, k)
    {
      var i :| 0 <= i < k && a[i] == x;
      forall j | 0 <= j < k
        ensures r[j] != x
      {
        assert r[j] == a[n - 1 - j];
      }
    }
  }

  lemma {:induction false} EndsMeet(a: seq<nat>, n: nat, k: nat)
    requires IsPermutation(a, n) && k <= n <= 2 * k
    ensures Seen(a, k) + Seen(Reversed(a), k) == Seen(a, n)
  {
    var r := Reversed(a);
    ReversedPermutes(a, n);
    SeenWithin(a, a, n, k);
    SeenWithin(a, r, n, k);
    forall x | x in Seen(a, n)
      ensures x in Seen(a, k) + Seen(r, k)
    {
      SeenIff(a, n);
      var i :| 0 <= i < n && a[i] == x;
      InEither(a, n, k, i);
    }
  }

  lemma {:induction false} InEither(a: seq<nat>, n: nat, k: nat, i: nat)
    requires |a| == n && i < n && k <= n <= 2 * k
    ensures a[i] in Seen(a, k) + Seen(Reversed(a), k)
  {
    if i < k {
      SeenIff(a, k);
    } else {
      SeenIff(Reversed(a), k);
      assert Reversed(a)[n - 1 - i] == a[i];
    }
  }

  /** A ranking and its reverse share no more than they must, at every depth. */
  lemma {:induction false} ReversedOverlap(a: seq<nat>, n: nat, k: nat)
    requires IsPermutation(a, n) && k <= n
    ensures Overlap(a, Reversed(a), k) == Max(0, 2 * k - n)
  {
    var r := Reversed(a);
    ReversedPermutes(a, n);
    SeenSize(a, k);
    SeenSize(r, k);
    SeenSize(a, n);
    UnionSize(Seen(a, k), Seen(r, k));
    if 2 * k <= n {
      EndsApart(a, n, k);
    } else {
      EndsMeet(a, n, k);
    }
  }

  lemma {:induction false} LargerPart(a: real, b: real, k: real)
    requires a <= b && k > 0.0
    ensures a / k <= b / k
  {
  }

  lemma {:induction false} LargerTerm(q: real, x: real, y: real)
    requires q >= 0.0 && x <= y
    ensures q * x <= q * y
  {
    ProductAtLeastZero(q, y - x);
  }

  predicate AtMost(x: seq<real>, y: seq<real>) {
    |x| == |y| && forall i | 0 <= i < |x| :: x[i] <= y[i]
  }

  lemma {:induction false} WeightedGrows(x: seq<real>, y: seq<real>, p: real, k: nat)
    requires AtMost(x, y) && k <= |x| && 0.0 <= p < 1.0
    ensures Weighted(x, p, k) <= Weighted(y, p, k)
    decreases k
  {
    if k > 0 {
      WeightedGrows(x, y, p, k - 1);
      PowPositive(p, k - 1);
      LargerTerm(Pow(p, k - 1), x[k - 1], y[k - 1]);
    }
  }

  lemma {:induction false} LargerSum(c: real, w: real, v: real, q: real, x: real, y: real)
    requires c >= 0.0 && w <= v && q >= 0.0 && x <= y
    ensures c * w + q * x <= c * v + q * y
  {
    LargerTerm(c, w, v);
    LargerTerm(q, x, y);
  }

  /** The score with its factors named. */
  lemma {:induction false} ScoreIs(x: seq<real>, p: real, c: real, w: real, q: real, last: real)
    requires x != [] && c == 1.0 - p && w == Weighted(x, p, |x|) && q == Pow(p, |x|) && last == x[|x| - 1]
    ensures Score(x, p) == c * w + q * last
  {
  }

  lemma {:induction false} ScoreGrows(x: seq<real>, y: seq<real>, p: real)
    requires AtMost(x, y) && x != [] && 0.0 <= p < 1.0
    ensures Score(x, p) <= Score(y, p)
  {
    var n := |x|;
    WeightedGrows(x, y, p, n);
    PowPositive(p, n);
    ScoresCompare(x, y, p, 1.0 - p, Weighted(x, p, n), Weighted(y, p, n), Pow(p, n), x[n - 1], y[n - 1]);
  }

  lemma {:induction false} ScoresCompare(x: seq<real>, y: seq<real>, p: real, c: real, w: real, v: real, q: real, last: real, last': real)
    requires |x| == |y| > 0 && c == 1.0 - p && w == Weighted(x, p, |x|) && v == Weighted(y, p, |y|) && q == Pow(p, |x|)
    requires last == x[|x| - 1] && last' == y[|y| - 1] && c >= 0.0 && w <= v && q >= 0.0 && last <= last'
    ensures Score(x, p) <= Score(y, p)
  {
    ScoreIs(x, p, c, w, q, last);
    ScoreIs(y, p, c, v, q, last');
    LargerSum(c, w, v, q, last, last');
  }

  /** No ranking has a smaller rank-biased overlap with a given one than its reverse. */
  lemma {:induction false} ReversedIsLowest(a: seq<nat>, b: seq<nat>, p: real)
    requires 1 <= |a| && IsPermutation(a, |a|) && IsPermutation(b, |a|) && 0.0 <= p < 1.0
    ensures RBO(a, Reversed(a), p) <= RBO(a, b, p)
  {
    var n, x, y := |a|, Agreements(a, Reversed(a)), Agreements(a, b);
    forall i | 0 <= i < n
      ensures x[i] <= y[i]
    {
      ReversedOverlap(a, n, i + 1);
      OverlapAtLeast(a, b, n, i + 1);
      LargerPart(Overlap(a, Reversed(a), i + 1) as real, Overlap(a, b, i + 1) as real, (i + 1) as real);
    }
    ScoreGrows(x, y, p);
  }
}
