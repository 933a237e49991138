/**
 Precision buckets by rank: tokens in descending order of score are cut at boundaries into
 buckets of decreasing precision. One allocator derives the boundaries by rounding each share
 down, another by rounding cumulative shares to the nearest.
 */
module Buckets {
  import opened Text
  import opened Arithmetic
  import opened Ordering
  import opened Ndcg

  // ---- cutting ranks at boundaries ----

  predicate Ascending(bounds: seq<nat>) {
    forall i, j | 0 <= i < j < |bounds| :: bounds[i] <= bounds[j]
  }

  /** The first bucket from `b` on whose boundary lies above rank `r`; the last one has no boundary. */
  function BucketFrom(bounds: seq<nat>, r: nat, b: nat): (c: nat)
    requires b <= |bounds|
    ensures b <= c <= |bounds|
    decreases |bounds| - b
  {
    if b == |bounds| || r < bounds[b] then b else BucketFrom(bounds, r, b + 1)
  }

  function BucketOfRank(bounds: seq<nat>, r: nat): nat {
    BucketFrom(bounds, r, 0)
  }

  /** Lower end of bucket `b`. */
  function Lower(bounds: seq<nat>, b: nat): nat
    requires b <= |bounds|
  {
    if b == 0 then 0 else bounds[b - 1]
  }

  lemma {:induction false} BucketFromIff(bounds: seq<nat>, r: nat, b: nat, c: nat)
    requires Ascending(bounds) && b <= c <= |bounds| && (b > 0 ==> bounds[b - 1] <= r)
    ensures BucketFrom(bounds, r, b) == c
            <==> Lower(bounds, c) <= r && (c < |bounds| ==> r < bounds[c])
    decreases |bounds| - b
  {
    if b < |bounds| && bounds[b] <= r {
      if b < c {
        BucketFromIff(bounds, r, b + 1, c);
      }
    } else if b < c {
      assert bounds[b] <= bounds[c - 1];
    }
  }

  /** A rank is in a bucket exactly if it lies between the boundaries of the bucket. */
  lemma {:induction false} BucketIff(bounds: seq<nat>, r: nat, c: nat)
    requires Ascending(bounds) && c <= |bounds|
    ensures BucketOfRank(bounds, r) == c <==> Lower(bounds, c) <= r && (c < |bounds| ==> r < bounds[c])
  {
    BucketFromIff(bounds, r, 0, c);
  }

  lemma {:induction false} BucketMonotone(bounds: seq<nat>, r: nat, s: nat)
    requires Ascending(bounds) && r <= s
    ensures BucketOfRank(bounds, r) <= BucketOfRank(bounds, s)
  {
    var b, c := BucketOfRank(bounds, r), BucketOfRank(bounds, s);
    BucketIff(bounds, r, b);
    BucketIff(bounds, s, c);
  }

  /** `result` gives every token the bucket of its rank. */
  ghost predicate Assigns(result: seq<nat>, order: seq<nat>, bounds: seq<nat>) {
    |result| == |order| && InRange(order, |result|)
    && forall r | 0 <= r < |order| :: result[order[r]] == BucketOfRank(bounds, r)
  }

  function Clip(x: int, n: nat): nat {
    if x < 0 then 0 else if x < n then x else n
  }

  /** Where a slice bound falls in a list of `n`; negative ones count from the end. */
  function SliceBound(x: int, n: nat): nat {
    if x < 0 then Clip(x + n, n) else Clip(x, n)
  }

  /** `v` written for the ranks from `low` to `high`. */
  function Fill(result: seq<nat>, order: seq<nat>, low: nat, high: nat, v: nat): (r: seq<nat>)
    requires high <= |order| && InRange(order, |result|)
    ensures |r| == |result|
    decreases high
  {
    if high <= low then result else Fill(result, order, low, high - 1, v)[order[high - 1] := v]
  }

  function Cursor(ends: seq<int>, b: nat): int
    requires b <= |ends|
  {
    if b == 0 then 0 else ends[b - 1]
  }

  /** The first `b` buckets written into their slices of the order, whatever their ends. */
  function Painted(order: seq<nat>, ends: seq<int>, b: nat): (r: seq<nat>)
    requires b <= |ends| && InRange(order, |order|)
    ensures |r| == |order|
  {
    if b == 0 then seq(|order|, _ => 0)
    else
      var n := |order|;
      Fill(Painted(order, ends, b - 1), order, SliceBound(Cursor(ends, b - 1), n), SliceBound(ends[b - 1], n), b - 1)
  }

  /** The nested loop of both allocators: write each bucket into its slice of the order. */
  method Paint(order: seq<nat>, ends: seq<int>) returns (result: seq<nat>)
    requires InRange(order, |order|)
    ensures result == Painted(order, ends, |ends|)
  {
    var n := |order|;
    result := seq(n, _ => 0);
    var cursor := 0;
    for bucket := 0 to |ends|
      invariant cursor == Cursor(ends, bucket) && result == Painted(order, ends, bucket)
    {
      var low, high := SliceBound(cursor, n), SliceBound(ends[bucket], n);
      ghost var before := result;
      var r := low;
      while r < high
        invariant low <= r && (low <= high ==> r <= high)
        invariant result == Fill(before, order, low, if low <= high then r else high, bucket)
      {
        result := result[order[r] := bucket];
        r := r + 1;
      }
      cursor := ends[bucket];
    }
  }

  lemma {:induction false} FillAt(result: seq<nat>, order: seq<nat>, low: nat, high: nat, v: nat, r: nat)
    requires high <= |order| && InRange(order, |result|) && Distinct(order) && r < |order|
    ensures Fill(result, order, low, high, v)[order[r]] == if low <= r < high then v else result[order[r]]
    decreases high
  {
    if low < high {
      FillAt(result, order, low, high - 1, v, r);
    }
  }

  /** The ends of all buckets but the last are boundaries, and the last bucket takes the rest. */
  predicate Ending(ends: seq<int>, bounds: seq<nat>, n: nat) {
    |ends| == |bounds| + 1 && ends[|bounds|] == n && forall b | 0 <= b < |bounds| :: ends[b] == bounds[b]
  }

  lemma {:induction false} PaintedRank(order: seq<nat>, ends: seq<int>, bounds: seq<nat>, b: nat, r: nat)
    requires IsPermutation(order, |order|) && Ascending(bounds) && Ending(ends, bounds, |order|)
    requires b <= |ends| && r < |order| && r < Cursor(ends, b)
    ensures Painted(order, ends, b)[order[r]] == BucketOfRank(bounds, r)
    decreases b
  {
    var n := |order|;
    var low, high := SliceBound(Cursor(ends, b - 1), n), SliceBound(ends[b - 1], n);
    FillAt(Painted(order, ends, b - 1), order, low, high, b - 1, r);
    if r < Cursor(ends, b - 1) {
      PaintedRank(order, ends, bounds, b - 1, r);
    } else {
      BucketIff(bounds, r, b - 1);
    }
  }

  /** With ascending boundaries every token gets the bucket of its rank. */
  lemma {:induction false} PaintedAssigns(order: seq<nat>, ends: seq<int>, bounds: seq<nat>)
    requires IsPermutation(order, |order|) && Ascending(bounds) && Ending(ends, bounds, |order|)
    ensures Assigns(Painted(order, ends, |ends|), order, bounds)
  {
    forall r | 0 <= r < |order|
      ensures Painted(order, ends, |ends|)[order[r]] == BucketOfRank(bounds, r)
    {
      PaintedRank(order, ends, bounds, |ends|, r);
    }
  }

  method Assign(order: seq<nat>, ends: seq<int>, ghost bounds: seq<nat>) returns (result: seq<nat>)
    requires IsPermutation(order, |order|) && Ascending(bounds) && Ending(ends, bounds, |order|)
    ensures Assigns(result, order, bounds)
  {
    result := Paint(order, ends);
    PaintedAssigns(order, ends, bounds);
  }

  // ---- how many tokens a bucket gets ----

  function CountIn(result: seq<nat>, b: nat, k: nat): nat
    requires k <= |result|
  {
    if k == 0 then 0 else CountIn(result, b, k - 1) + (if result[k - 1] == b then 1 else 0)
  }

  function Indicator(marks: seq<bool>): (v: seq<real>)
    ensures |v| == |marks| && forall i | 0 <= i < |v| :: v[i] == if marks[i] then 1.0 else 0.0
  {
    seq(|marks|, i requires 0 <= i < |marks| => if marks[i] then 1.0 else 0.0)
  }

  function Identity(n: nat): (r: seq<nat>)
    ensures |r| == n && forall i | 0 <= i < n :: r[i] == i
  {
    seq(n, i requires 0 <= i => i)
  }

  lemma {:induction false} IdentityPermutes(n: nat)
    ensures IsPermutation(Identity(n), n)
  {
    forall p | 0 <= p < n
      ensures p in Identity(n)
    {
      assert Identity(n)[p] == p;
    }
  }

  /** Number of marked positions among the first `k` of an ordering. */
  function MarkedAt(marks: seq<bool>, order: seq<nat>, k: nat): nat
    requires InRange(order, |marks|) && k <= |order|
  {
    if k == 0 then 0 else MarkedAt(marks, order, k - 1) + (if marks[order[k - 1]] then 1 else 0)
  }

  lemma {:induction k} MarkedIsSum(marks: seq<bool>, order: seq<nat>, k: nat)
    requires InRange(order, |marks|) && k <= |order|
    ensures MarkedAt(marks, order, k) as real == SumAt(Indicator(marks), order, k)
  {
  }

  /** Counting along any ordering of all positions gives the same number. */
  lemma {:induction false} MarkedAnyOrder(marks: seq<bool>, order: seq<nat>)
    requires IsPermutation(order, |marks|)
    ensures MarkedAt(marks, order, |marks|) == MarkedAt(marks, Identity(|marks|), |marks|)
  {
    IdentityPermutes(|marks|);
    MarkedIsSum(marks, order, |marks|);
    MarkedIsSum(marks, Identity(|marks|), |marks|);
    SumAtPermutation(Indicator(marks), order, Identity(|marks|));
  }

  function InBucket(result: seq<nat>, b: nat): (m: seq<bool>)
    ensures |m| == |result| && forall i | 0 <= i < |m| :: m[i] == (result[i] == b)
  {
    seq(|result|, i requires 0 <= i < |result| => result[i] == b)
  }

  lemma {:induction k} CountIsMarked(result: seq<nat>, b: nat, k: nat)
    requires k <= |result|
    ensures CountIn(result, b, k) == MarkedAt(InBucket(result, b), Identity(|result|), k)
  {
  }

  /** End of bucket `b` among `k` ranks. */
  function Upper(bounds: seq<nat>, b: nat, k: nat): nat
    requires b <= |bounds|
  {
    if b < |bounds| then Clip(bounds[b], k) else k
  }

  lemma {:induction false} CountAlongRanks(result: seq<nat>, order: seq<nat>, bounds: seq<nat>, b: nat, k: nat)
    requires Assigns(result, order, bounds) && Ascending(bounds) && b <= |bounds| && k <= |order|
    ensures MarkedAt(InBucket(result, b), order, k) == Upper(bounds, b, k) - Clip(Lower(bounds, b), k)
  {
    if 0 < b < |bounds| {
      assert bounds[b - 1] <= bounds[b];
    }
    if k > 0 {
      CountAlongRanks(result, order, bounds, b, k - 1);
      BucketIff(bounds, k - 1, b);
    }
  }

  /** Every bucket gets the tokens between its boundaries, as far as there are tokens. */
  lemma {:induction false} BucketSize(result: seq<nat>, order: seq<nat>, bounds: seq<nat>, b: nat)
    requires Assigns(result, order, bounds) && IsPermutation(order, |order|) && Ascending(bounds) && b <= |bounds|
    ensures CountIn(result, b, |result|) == Upper(bounds, b, |order|) - Clip(Lower(bounds, b), |order|)
  {
    CountIsMarked(result, b, |result|);
    MarkedAnyOrder(InBucket(result, b), order);
    CountAlongRanks(result, order, bounds, b, |order|);
  }

  // ---- the allocator that rounds every share down ----

  predicate NonNegative(ratios: seq<real>) {
    forall i | 0 <= i < |ratios| :: ratios[i] >= 0.0
  }

  function Total(ratios: seq<real>, k: nat): real
    requires k <= |ratios|
  {
    if k == 0 then 0.0 else Total(ratios, k - 1) + ratios[k - 1]
  }

  /** Shares that sum to one within a tolerance. */
  predicate ValidRatios(ratios: seq<real>) {
    ratios != [] && -0.000001 <= Total(ratios, |ratios|) - 1.0 <= 0.000001
  }

  function Share(ratio: real, n: nat): nat
    requires ratio >= 0.0
  {
    ProductAtLeastZero(ratio, n as real);
    (ratio * n as real).Floor
  }

  function Shares(ratios: seq<real>, n: nat): (c: seq<nat>)
    requires NonNegative(ratios)
    ensures |c| == |ratios| && forall b | 0 <= b < |c| :: c[b] == Share(ratios[b], n)
  {
    seq(|ratios|, b requires 0 <= b < |ratios| => Share(ratios[b], n))
  }

  function PrefixSum(c: seq<nat>, b: nat): nat
    requires b <= |c|
  {
    if b == 0 then 0 else PrefixSum(c, b - 1) + c[b - 1]
  }

  /** Number of tokens in the first `b` shares. */
  function Bound(ratios: seq<real>, n: nat, b: nat): nat
    requires NonNegative(ratios) && b <= |ratios|
  {
    PrefixSum(Shares(ratios, n), b)
  }

  /** Boundaries of all buckets but the last. */
  function FloorBounds(ratios: seq<real>, n: nat): (r: seq<nat>)
    requires NonNegative(ratios) && ratios != []
    ensures |r| == |ratios| - 1 && forall b | 0 <= b < |r| :: r[b] == Bound(ratios, n, b + 1)
  {
    seq(|ratios| - 1, b requires 0 <= b < |ratios| - 1 => Bound(ratios, n, b + 1))
  }

  lemma {:induction false} PrefixSumMonotone(c: seq<nat>, b: nat, b': nat)
    requires b <= b' <= |c|
    ensures PrefixSum(c, b) <= PrefixSum(c, b')
    decreases b' - b
  {
    if b < b' {
      PrefixSumMonotone(c, b, b' - 1);
    }
  }

  lemma {:induction false} FloorBoundsAscending(ratios: seq<real>, n: nat)
    requires NonNegative(ratios) && ratios != []
    ensures Ascending(FloorBounds(ratios, n))
  {
    forall i, j | 0 <= i < j < |ratios| - 1
      ensures FloorBounds(ratios, n)[i] <= FloorBounds(ratios, n)[j]
    {
      PrefixSumMonotone(Shares(ratios, n), i + 1, j + 1);
    }
  }

  /** The floored share of any ratio, negative ones included. */
  function AnyShare(ratio: real, n: nat): int {
    (ratio * n as real).Floor
  }

  /** The sum of the first `b` floored shares. */
  function AnyBound(ratios: seq<real>, n: nat, b: nat): int
    requires b <= |ratios|
  {
    if b == 0 then 0 else AnyBound(ratios, n, b - 1) + AnyShare(ratios[b - 1], n)
  }

  /** The ends of the buckets; the last bucket ends with the tokens. */
  function Ends(ratios: seq<real>, n: nat): (r: seq<int>)
    requires ratios != []
    ensures |r| == |ratios| && r[|ratios| - 1] == n && forall b | 0 <= b < |ratios| - 1 :: r[b] == AnyBound(ratios, n, b + 1)
  {
    seq(|ratios| - 1, b requires 0 <= b < |ratios| - 1 => AnyBound(ratios, n, b + 1)) + [n]
  }

  lemma {:induction false} AnyBoundIs(ratios: seq<real>, n: nat, b: nat)
    requires NonNegative(ratios) && b <= |ratios|
    ensures AnyBound(ratios, n, b) == Bound(ratios, n, b)
    decreases b
  {
    if b > 0 {
      AnyBoundIs(ratios, n, b - 1);
      assert Shares(ratios, n)[b - 1] == Share(ratios[b - 1], n);
    }
  }

  lemma {:induction false} EndsAre(ratios: seq<real>, n: nat)
    requires NonNegative(ratios) && ratios != []
    ensures Ending(Ends(ratios, n), FloorBounds(ratios, n), n)
  {
    forall b | 0 <= b < |ratios| - 1
      ensures Ends(ratios, n)[b] == FloorBounds(ratios, n)[b]
    {
      AnyBoundIs(ratios, n, b + 1);
    }
  }

  /**
   Buckets of all tokens; `ok` is false if the ratios do not sum to one. For ratios that are not
   negative, as the command line demands, every token gets the bucket of its rank; for others the
   slices are what they are.
   */
  method BucketIds(scores: seq<real>, ratios: seq<real>) returns (ok: bool, result: seq<nat>)
    ensures ok <==> ValidRatios(ratios)
    ensures ok ==> result == Painted(DescendingOrder(scores), Ends(ratios, |scores|), |ratios|)
    ensures ok && NonNegative(ratios) ==> Assigns(result, DescendingOrder(scores), FloorBounds(ratios, |scores|))
  {
    if !ValidRatios(ratios) {
      return false, [];
    }
    var n := |scores|;
    var order := DescendingOrder(scores);
    DescendingOrderCorrect(scores);
    var ends: seq<int> := [];
    var sum := 0;
    for b := 0 to |ratios| - 1
      invariant sum == AnyBound(ratios, n, b)
      invariant |ends| == b && forall i | 0 <= i < b :: ends[i] == AnyBound(ratios, n, i + 1)
    {
      sum := sum + AnyShare(ratios[b], n);
      ends := ends + [sum];
    }
    ends := ends + [n];
    ok := true;
    result := Paint(order, ends);
    assert ends == Ends(ratios, n);
    BucketsAssign(order, ratios, n);
  }

  lemma {:induction false} BucketsAssign(order: seq<nat>, ratios: seq<real>, n: nat)
    requires IsPermutation(order, n) && ratios != []
    ensures NonNegative(ratios) ==> Assigns(Painted(order, Ends(ratios, n), |ratios|), order, FloorBounds(ratios, n))
  {
    if NonNegative(ratios) {
      FloorBoundsAscending(ratios, n);
      EndsAre(ratios, n);
      PaintedAssigns(order, Ends(ratios, n), FloorBounds(ratios, n));
    }
  }

  /** What bucket `b` gets when only `n` tokens are there to be given. */
  function Given(c: seq<nat>, n: nat, b: nat): int
    requires b < |c|
  {
    Clip(PrefixSum(c, b + 1), n) - Clip(PrefixSum(c, b), n)
  }

  predicate GivenExactly(c: seq<nat>, n: nat, k: nat)
    requires k <= |c|
  {
    k == 0 || (GivenExactly(c, n, k - 1) && Given(c, n, k - 1) == c[k - 1])
  }

  lemma {:induction k} GivenExactlyAll(c: seq<nat>, n: nat, k: nat)
    requires k <= |c|
    ensures GivenExactly(c, n, k) <==> forall b | 0 <= b < k :: Given(c, n, b) == c[b]
  {
  }

  lemma {:induction k} GivenExactlyFits(c: seq<nat>, n: nat, k: nat)
    requires k <= |c|
    ensures GivenExactly(c, n, k) <==> PrefixSum(c, k) <= n
  {
  }

  lemma {:induction false} CountIsGiven(result: seq<nat>, scores: seq<real>, ratios: seq<real>, b: nat)
    requires NonNegative(ratios) && b + 1 < |ratios|
    requires Assigns(result, DescendingOrder(scores), FloorBounds(ratios, |scores|))
    ensures CountIn(result, b, |result|) == Given(Shares(ratios, |scores|), |scores|, b)
  {
    DescendingOrderCorrect(scores);
    FloorBoundsAscending(ratios, |scores|);
    BucketSize(result, DescendingOrder(scores), FloorBounds(ratios, |scores|), b);
  }

  /** Every bucket but the last gets exactly its share rounded down, for all of them, iff the shares fit. */
  lemma {:induction false} ExactSharesIff(result: seq<nat>, scores: seq<real>, ratios: seq<real>)
    requires NonNegative(ratios) && ratios != []
    requires Assigns(result, DescendingOrder(scores), FloorBounds(ratios, |scores|))
    ensures (forall b | 0 <= b < |ratios| - 1 :: CountIn(result, b, |result|) == Share(ratios[b], |scores|))
            <==> Bound(ratios, |scores|, |ratios| - 1) <= |scores|
  {
    forall b | 0 <= b < |ratios| - 1
      ensures CountIn(result, b, |result|) == Given(Shares(ratios, |scores|), |scores|, b)
    {
      CountIsGiven(result, scores, ratios, b);
    }
    GivenExactlyAll(Shares(ratios, |scores|), |scores|, |ratios| - 1);
    GivenExactlyFits(Shares(ratios, |scores|), |scores|, |ratios| - 1);
  }

  /** Scaling with the number of tokens, with the product kept out of sight. */
  function Scaled(n: nat): real -> real {
    (r: real) => r * n as real
  }

  ghost predicate ScalesAt(f: real -> real, ratios: seq<real>, n: nat, b: nat)
    requires NonNegative(ratios) && b < |ratios|
  {
    f(Total(ratios, b + 1)) == f(Total(ratios, b)) + f(ratios[b]) && Share(ratios[b], n) == f(ratios[b]).Floor
  }

  ghost predicate Scales(f: real -> real, ratios: seq<real>, n: nat)
    requires NonNegative(ratios)
  {
    f(0.0) == 0.0 && forall b | 0 <= b < |ratios| :: ScalesAt(f, ratios, n, b)
  }

  lemma {:induction false} SumTimes(a: real, b: real, n: real)
    ensures (a + b) * n == a * n + b * n && (a - b) * n == a * n - b * n
  {
  }

  lemma {:induction false} ScaledScales(ratios: seq<real>, n: nat)
    requires NonNegative(ratios)
    ensures Scales(Scaled(n), ratios, n)
  {
    forall b | 0 <= b < |ratios|
      ensures ScalesAt(Scaled(n), ratios, n, b)
    {
      SumTimes(Total(ratios, b), ratios[b], n as real);
    }
  }

  /** Rounding down loses less than one token for each share. */
  lemma {:induction false} BoundNearTotal(f: real -> real, ratios: seq<real>, n: nat, k: nat)
    requires NonNegative(ratios) && k <= |ratios| && Scales(f, ratios, n)
    ensures f(Total(ratios, k)) - k as real <= Bound(ratios, n, k) as real <= f(Total(ratios, k))
    decreases k
  {
    if k > 0 {
      BoundNearTotal(f, ratios, n, k - 1);
      assert ScalesAt(f, ratios, n, k - 1);
      assert Shares(ratios, n)[k - 1] == Share(ratios[k - 1], n);
    }
  }

  /** Some number of tokens, times an excess, is more than `k`. */
  lemma {:induction false} ManyEnough(excess: real, k: nat) returns (n: nat)
    requires excess > 0.0
    ensures excess * n as real > k as real
  {
    var q := k as real / excess;
    n := q.Floor + 1;
    assert q * excess == k as real;
    LargerFactor(q, n as real, excess);
  }

  lemma {:induction false} LargerFactor(a: real, b: real, c: real)
    requires a < b && c > 0.0
    ensures c * b > a * c
  {
    assert (b - a) * c > 0.0;
  }

  lemma {:induction false} FitsWithin(ratios: seq<real>, n: nat, k: nat)
    requires NonNegative(ratios) && k <= |ratios| && Total(ratios, k) <= 1.0
    ensures Bound(ratios, n, k) <= n
  {
    ScaledScales(ratios, n);
    AtMostOnce(Total(ratios, k), n);
    FitsBy(Scaled(n), ratios, n, k);
  }

  lemma {:induction false} FitsBy(f: real -> real, ratios: seq<real>, n: nat, k: nat)
    requires NonNegative(ratios) && k <= |ratios| && Scales(f, ratios, n) && f(Total(ratios, k)) <= n as real
    ensures Bound(ratios, n, k) <= n
  {
    BoundNearTotal(f, ratios, n, k);
  }

  lemma {:induction false} FitsNotAlways(ratios: seq<real>, k: nat) returns (n: nat)
    requires NonNegative(ratios) && k <= |ratios| && Total(ratios, k) > 1.0
    ensures Bound(ratios, n, k) > n
  {
    n := Overflowing(Total(ratios, k), k);
    ScaledScales(ratios, n);
    FitsNotBy(Scaled(n), ratios, n, k);
  }

  lemma {:induction false} FitsNotBy(f: real -> real, ratios: seq<real>, n: nat, k: nat)
    requires NonNegative(ratios) && k <= |ratios| && Scales(f, ratios, n) && f(Total(ratios, k)) > n as real + k as real
    ensures Bound(ratios, n, k) > n
  {
    BoundNearTotal(f, ratios, n, k);
  }

  /** The shares of the first `k` ratios fit every number of tokens exactly when these ratios sum to at most one. */
  lemma {:induction false} AlwaysFitIff(ratios: seq<real>, k: nat)
    requires NonNegative(ratios) && k <= |ratios|
    ensures (forall n: nat :: Bound(ratios, n, k) <= n) <==> Total(ratios, k) <= 1.0
  {
    if Total(ratios, k) <= 1.0 {
      forall n: nat
        ensures Bound(ratios, n, k) <= n
      {
        FitsWithin(ratios, n, k);
      }
    } else {
      var n := FitsNotAlways(ratios, k);
    }
  }

  lemma {:induction false} AtMostOnce(total: real, n: nat)
    requires total <= 1.0
    ensures Scaled(n)(total) <= n as real
  {
    ProductAtLeastZero(1.0 - total, n as real);
    SumTimes(1.0, total, n as real);
  }

  lemma {:induction false} Overflowing(total: real, k: nat) returns (n: nat)
    requires total > 1.0
    ensures Scaled(n)(total) > n as real + k as real
  {
    n := ManyEnough(total - 1.0, k);
    SumTimes(total, 1.0, n as real);
  }

  /** So first ratios that sum to at most one give exact shares, however many tokens there are. */
  lemma {:induction false} ExactShares(result: seq<nat>, scores: seq<real>, ratios: seq<real>)
    requires NonNegative(ratios) && ratios != [] && Total(ratios, |ratios| - 1) <= 1.0
    requires Assigns(result, DescendingOrder(scores), FloorBounds(ratios, |scores|))
    ensures forall b | 0 <= b < |ratios| - 1 :: CountIn(result, b, |result|) == Share(ratios[b], |scores|)
  {
    AlwaysFitIff(ratios, |ratios| - 1);
    ExactSharesIff(result, scores, ratios);
  }

  /** The tolerance admits ratios whose first ones exceed one: here the second share is eight tokens short. */
  lemma {:induction false} ToleranceOverflows(ratios: seq<real>, n: nat)
    requires ratios == [0.5000004, 0.5000004, 0.0] && n == 10000000
    ensures ValidRatios(ratios) && Bound(ratios, n, 2) == n + 8
    ensures Given(Shares(ratios, n), n, 1) == Share(ratios[1], n) - 8
  {
    assert Total(ratios, 0) == 0.0;
    assert Total(ratios, 1) == Total(ratios, 0) + ratios[0];
    assert Total(ratios, 2) == Total(ratios, 1) + ratios[1];
    assert Total(ratios, 3) == Total(ratios, 2) + ratios[2];
    assert Share(0.5000004, n) == 5000004;
    assert Shares(ratios, n)[0] == 5000004 && Shares(ratios, n)[1] == 5000004;
    assert PrefixSum(Shares(ratios, n), 1) == 5000004;
  }

  /** A higher score, or an equal one at an earlier position, never gets a lower precision. */
  lemma {:induction false} BucketsFollowScores(result: seq<nat>, scores: seq<real>, bounds: seq<nat>, p: nat, q: nat)
    requires Assigns(result, DescendingOrder(scores), bounds) && Ascending(bounds)
    requires p < |scores| && q < |scores|
    requires scores[p] > scores[q] || (scores[p] == scores[q] && p < q)
    ensures result[p] <= result[q]
  {
    var keys, order := Negated(scores), DescendingOrder(scores);
    ArgSortCorrect(keys);
    assert p in order && q in order;
    var r :| 0 <= r < |order| && order[r] == p;
    var s :| 0 <= s < |order| && order[s] == q;
    BucketMonotone(bounds, r, s);
  }

  // ---- non-finite scores ----

  datatype Score = Finite(value: real) | NonFinite

  /** Positions of the finite scores among the first `k`. */
  function FinitePositions(scores: seq<Score>, k: nat): (r: seq<nat>)
    requires k <= |scores|
    ensures forall i | 0 <= i < |r| :: r[i] < k && scores[r[i]].Finite?
    ensures forall i, j | 0 <= i < j < |r| :: r[i] < r[j]
    ensures forall p | 0 <= p < k && scores[p].Finite? :: p in r
  {
    if k == 0 then []
    else if scores[k - 1].Finite? then FinitePositions(scores, k - 1) + [k - 1]
    else FinitePositions(scores, k - 1)
  }

  function FiniteScores(scores: seq<Score>): (r: seq<real>)
    ensures |r| == |FinitePositions(scores, |scores|)|
    ensures forall i | 0 <= i < |r| :: r[i] == scores[FinitePositions(scores, |scores|)[i]].value
  {
    var at := FinitePositions(scores, |scores|);
    seq(|at|, i requires 0 <= i < |at| => scores[at[i]].value)
  }

  method SplitFinite(scores: seq<Score>) returns (at: seq<nat>, forced: nat)
    ensures at == FinitePositions(scores, |scores|) && forced == |scores| - |at|
  {
    at, forced := [], 0;
    for p := 0 to |scores|
      invariant at == FinitePositions(scores, p) && forced == p - |at|
    {
      if scores[p].Finite? {
        at := at + [p];
      } else {
        forced := forced + 1;
      }
    }
  }

  /** Write the buckets of the finite tokens to their positions, zero elsewhere. */
  method Scatter(n: nat, at: seq<nat>, buckets: seq<nat>) returns (result: seq<nat>)
    requires |at| == |buckets| && InRange(at, n) && Distinct(at)
    ensures |result| == n
    ensures forall i | 0 <= i < |at| :: result[at[i]] == buckets[i]
    ensures forall p | 0 <= p < n && p !in at :: result[p] == 0
  {
    result := seq(n, _ => 0);
    for i := 0 to |at|
      invariant |result| == n
      invariant forall j | 0 <= j < i :: result[at[j]] == buckets[j]
      invariant forall p | 0 <= p < n && p !in at :: result[p] == 0
    {
      assert at[i] in at;
      result := result[at[i] := buckets[i]];
    }
  }

  /**
   Non-finite scores go to bucket 0; every finite token gets the bucket of its rank among the
   finite scores alone, so that non-finite scores change nothing for the others.
   */
  method BucketIdsWithSafety(scores: seq<Score>, ratios: seq<real>) returns (ok: bool, result: seq<nat>, forced: nat)
    ensures ok <==> ValidRatios(ratios)
    ensures ok ==> |result| == |scores| && forced == |scores| - |FinitePositions(scores, |scores|)|
    ensures ok ==> forall p | 0 <= p < |scores| && scores[p].NonFinite? :: result[p] == 0
    ensures ok ==> var at, finite := FinitePositions(scores, |scores|), FiniteScores(scores);
                   forall i | 0 <= i < |at| ::
                     result[at[i]] == Painted(DescendingOrder(finite), Ends(ratios, |finite|), |ratios|)[i]
    ensures ok && NonNegative(ratios)
            ==> var at, finite := FinitePositions(scores, |scores|), FiniteScores(scores);
                   forall r | 0 <= r < |finite| ::
                     result[at[DescendingOrder(finite)[r]]] == BucketOfRank(FloorBounds(ratios, |finite|), r)
  {
    var at: seq<nat>;
    at, forced := SplitFinite(scores);
    var finite := FiniteScores(scores);
    var alone: seq<nat>;
    ok, alone := BucketIds(finite, ratios);
    if !ok {
      return false, [], 0;
    }
    result := Scatter(|scores|, at, alone);
  }

  // ---- the allocator that rounds cumulative shares ----

  /** `round(a / b)`: to the nearest integer, halves to the even one. */
  function RoundDiv(a: nat, b: nat): nat
    requires b > 0
  {
    var q, r := a / b, a % b;
    if 2 * r < b then q else if 2 * r > b then q + 1 else if q % 2 == 0 then q else q + 1
  }

  /** Boundaries at 10, 30 and 80 percent. */
  function RoundBounds(n: nat): seq<nat> {
    [RoundDiv(n, 10), RoundDiv(3 * n, 10), RoundDiv(8 * n, 10)]
  }

  lemma {:induction false} RoundBoundsAscending(n: nat)
    ensures Ascending(RoundBounds(n)) && RoundDiv(8 * n, 10) <= n
  {
    RoundSteps(n / 10, n % 10);
  }

  /** The boundaries in terms of the last digit. */
  lemma {:induction false} RoundSteps(q: nat, r: nat)
    requires r < 10
    ensures var n := 10 * q + r;
            && q <= RoundDiv(n, 10) <= q + 1 && (r < 5 ==> RoundDiv(n, 10) == q)
            && RoundDiv(3 * n, 10) == 3 * q + RoundDiv3(q, r) && RoundDiv(8 * n, 10) == 8 * q + RoundDiv8(r)
  {
    var n := 10 * q + r;
    Ten(n, q, r);
    var three := if r < 4 then 0 else if r < 7 then 1 else 2;
    Ten(3 * n, 3 * q + three, 3 * r - 10 * three);
    var eight := if r < 2 then 0 else if r < 6 then r - 1 else r - 2;
    Ten(8 * n, 8 * q + eight, 8 * r - 10 * eight);
  }

  lemma {:induction false} Ten(a: nat, q: nat, r: nat)
    requires a == 10 * q + r && r < 10
    ensures a / 10 == q && a % 10 == r
  {
  }

  /** round(3r/10) for the last digit; only r = 5 is a tie, decided by the parity of 3q + 1. */
  function RoundDiv3(q: nat, r: nat): nat
    requires r < 10
  {
    if r < 2 then 0 else if r < 5 then 1 else if r == 5 then (if q % 2 == 0 then 2 else 1) else if r < 9 then 2 else 3
  }

  function RoundDiv8(r: nat): nat
    requires r < 10
  {
    if r == 0 then 0 else if r == 1 then 1 else if r < 4 then 2 else if r == 4 then 3 else if r == 5 then 4
    else if r == 6 then 5 else if r < 9 then 6 else 7
  }

  /** Scores with every invalid token below all others, as an infinitely low score would put it. */
  function Lowered(scores: seq<real>, valid: seq<bool>): (v: seq<real>)
    requires |scores| == |valid|
    ensures |v| == |scores| && forall i | 0 <= i < |v| && valid[i] :: v[i] == scores[i]
    ensures forall i, j | 0 <= i < |v| && 0 <= j < |v| && valid[i] && !valid[j] :: v[i] > v[j]
    ensures forall i, j | 0 <= i < |v| && 0 <= j < |v| && !valid[i] && !valid[j] :: v[i] == v[j]
  {
    if scores == [] then []
    else seq(|scores|, i requires 0 <= i < |scores| => if valid[i] then scores[i] else Minimum(scores) - 1.0)
  }

  /** Those of the first `k` positions of an ordering that are not forced. */
  function Eligible(order: seq<nat>, forced: seq<bool>, k: nat): (r: seq<nat>)
    requires k <= |order| && InRange(order, |forced|)
    ensures InRange(r, |forced|) && forall i | 0 <= i < |r| :: !forced[r[i]]
  {
    if k == 0 then [] else Eligible(order, forced, k - 1) + if forced[order[k - 1]] then [] else [order[k - 1]]
  }

  lemma {:induction false} EligibleIff(order: seq<nat>, forced: seq<bool>, k: nat, p: nat)
    requires k <= |order| && InRange(order, |forced|)
    ensures p in Eligible(order, forced, k) <==> p < |forced| && !forced[p] && p in order[..k]
    decreases k
  {
    if k > 0 {
      EligibleIff(order, forced, k - 1, p);
      assert order[..k] == order[..k - 1] + [order[k - 1]];
    }
  }

  lemma {:induction false} EligibleSorted(keys: seq<real>, order: seq<nat>, forced: seq<bool>, k: nat)
    requires k <= |order| && InRange(order, |keys|) && |forced| == |keys| && IsSorted(keys, order)
    ensures IsSorted(keys, Eligible(order, forced, k))
    ensures forall i, j | 0 <= i < |Eligible(order, forced, k)| && k <= j < |order| ::
              Precedes(keys, Eligible(order, forced, k)[i], order[j])
    decreases k
  {
    if k > 0 {
      EligibleSorted(keys, order, forced, k - 1);
    }
  }

  /** One token comes before another: valid before invalid, then by score and by position. */
  predicate Before(scores: seq<real>, valid: seq<bool>, p: nat, q: nat)
    requires |scores| == |valid| && p < |scores| && q < |scores|
  {
    if valid[p] != valid[q] then valid[p]
    else if valid[p] && scores[p] != scores[q] then scores[p] > scores[q]
    else p < q
  }

  /** The order in which the eligible tokens are cut into buckets. */
  function EligibleOrder(scores: seq<real>, valid: seq<bool>, forced: seq<bool>): seq<nat>
    requires |scores| == |valid| == |forced|
  {
    Eligible(DescendingOrder(Lowered(scores, valid)), forced, |scores|)
  }

  /** It holds every token that is not forced, once, in order. */
  lemma {:induction false} EligibleOrderCorrect(scores: seq<real>, valid: seq<bool>, forced: seq<bool>)
    requires |scores| == |valid| == |forced|
    ensures var e := EligibleOrder(scores, valid, forced);
            && (forall p: nat :: p in e <==> p < |scores| && !forced[p])
            && Distinct(e) && forall i, j | 0 <= i < j < |e| :: Before(scores, valid, e[i], e[j])
  {
    var v := Lowered(scores, valid);
    var order, keys, n := DescendingOrder(v), Negated(v), |scores|;
    ArgSortCorrect(keys);
    EligibleSorted(keys, order, forced, n);
    assert order[..n] == order;
    forall p: nat
      ensures p in EligibleOrder(scores, valid, forced) <==> p < |scores| && !forced[p]
    {
      EligibleIff(order, forced, n, p);
    }
    EligibleBefore(scores, valid, keys, EligibleOrder(scores, valid, forced));
  }

  lemma {:induction false} EligibleBefore(scores: seq<real>, valid: seq<bool>, keys: seq<real>, e: seq<nat>)
    requires |scores| == |valid| && keys == Negated(Lowered(scores, valid)) && InRange(e, |scores|) && IsSorted(keys, e)
    ensures Distinct(e) && forall i, j | 0 <= i < j < |e| :: Before(scores, valid, e[i], e[j])
  {
    forall i, j | 0 <= i < j < |e|
      ensures e[i] != e[j] && Before(scores, valid, e[i], e[j])
    {
      assert Precedes(keys, e[i], e[j]);
    }
  }

  function Negation(marks: seq<bool>): (r: seq<bool>)
    ensures |r| == |marks| && forall i | 0 <= i < |r| :: r[i] == !marks[i]
  {
    seq(|marks|, i requires 0 <= i < |marks| => !marks[i])
  }

  /** `result` gives every eligible token the bucket of its rank among them, and the others the first one. */
  ghost predicate AssignsEligible(result: seq<nat>, eligible: seq<nat>, bounds: seq<nat>) {
    && InRange(eligible, |result|) && (forall p | 0 <= p < |result| && p !in eligible :: result[p] == 0)
    && forall r | 0 <= r < |eligible| :: result[eligible[r]] == BucketOfRank(bounds, r)
  }

  /** Forced tokens default to the invalid ones. */
  method FixedSortAllocation(scores: seq<real>, valid: seq<bool>, forcedMask: Option<seq<bool>>) returns (result: seq<nat>)
    requires |valid| == |scores| && (forcedMask.Some? ==> |forcedMask.value| == |scores|)
    ensures var forced := if forcedMask.Some? then forcedMask.value else Negation(valid);
            var eligible := EligibleOrder(scores, valid, forced);
            |result| == |scores| && AssignsEligible(result, eligible, RoundBounds(|eligible|))
  {
    var forced := if forcedMask.Some? then forcedMask.value else Negation(valid);
    var eligible := EligibleOrder(scores, valid, forced);
    EligibleOrderCorrect(scores, valid, forced);
    var m := |eligible|;
    RoundBoundsAscending(m);
    IdentityPermutes(m);
    var ranks := Assign(Identity(m), RoundBounds(m) + [m], RoundBounds(m));
    forall r | 0 <= r < m
      ensures ranks[r] == BucketOfRank(RoundBounds(m), r)
    {
      assert Identity(m)[r] == r;
    }
    result := Scatter(|scores|, eligible, ranks);
  }

  lemma {:induction false} NoneForced(order: seq<nat>, forced: seq<bool>, k: nat)
    requires k <= |order| && InRange(order, |forced|) && forall i | 0 <= i < |forced| :: !forced[i]
    ensures Eligible(order, forced, k) == order[..k]
    decreases k
  {
    if k > 0 {
      NoneForced(order, forced, k - 1);
      assert order[..k] == order[..k - 1] + [order[k - 1]];
    }
  }

  /** When every token is valid and none is forced, all are ranked by score. */
  lemma {:induction false} Unmasked(result: seq<nat>, scores: seq<real>, valid: seq<bool>, forced: seq<bool>)
    requires |scores| == |valid| == |forced| == |result| && forall i | 0 <= i < |scores| :: valid[i] && !forced[i]
    requires AssignsEligible(result, EligibleOrder(scores, valid, forced), RoundBounds(|EligibleOrder(scores, valid, forced)|))
    ensures Assigns(result, DescendingOrder(scores), RoundBounds(|scores|))
  {
    assert Lowered(scores, valid) == scores;
    var order := DescendingOrder(scores);
    NoneForced(order, forced, |scores|);
    assert order[..|scores|] == order;
  }

  // ---- the two allocators compared ----

  const FIXED: seq<real> := [0.1, 0.2, 0.5, 0.2]

  /** One list of boundaries lies above another. */
  ghost predicate Above(upper: seq<nat>, lower: seq<nat>) {
    |upper| == |lower| && Ascending(upper) && Ascending(lower)
    && forall i | 0 <= i < |upper| :: lower[i] <= upper[i]
  }

  /** Higher boundaries never lower the precision, and matter only for ranks between the two. */
  lemma {:induction false} AboveBucket(upper: seq<nat>, lower: seq<nat>, r: nat)
    requires Above(upper, lower)
    ensures BucketOfRank(upper, r) <= BucketOfRank(lower, r)
    ensures BucketOfRank(upper, r) < BucketOfRank(lower, r)
            ==> BucketOfRank(upper, r) < |upper| && lower[BucketOfRank(upper, r)] <= r < upper[BucketOfRank(upper, r)]
  {
    AboveFrom(upper, lower, r, 0);
  }

  lemma {:induction false} AboveFrom(upper: seq<nat>, lower: seq<nat>, r: nat, b: nat)
    requires Above(upper, lower) && b <= |upper|
    ensures BucketFrom(upper, r, b) <= BucketFrom(lower, r, b)
    ensures var c := BucketFrom(upper, r, b);
            c < BucketFrom(lower, r, b) ==> c < |upper| && lower[c] <= r < upper[c]
    decreases |upper| - b
  {
    if b < |upper| && r >= upper[b] {
      AboveFrom(upper, lower, r, b + 1);
    }
  }

  /** Number of ranks below `k` for which two lists of boundaries give different buckets. */
  function Differing(upper: seq<nat>, lower: seq<nat>, k: nat): nat {
    if k == 0 then 0
    else Differing(upper, lower, k - 1)
         + (if BucketOfRank(upper, k - 1) != BucketOfRank(lower, k - 1) then 1 else 0)
  }

  /** Ranks below `k` between the i-th boundaries. */
  function Between(upper: seq<nat>, lower: seq<nat>, i: nat, k: nat): int
    requires i < |upper| && i < |lower|
  {
    Clip(upper[i], k) - Clip(lower[i], k)
  }

  lemma {:induction false} DifferingAtMost(upper: seq<nat>, lower: seq<nat>, k: nat)
    requires Above(upper, lower) && |upper| == 3
    ensures Differing(upper, lower, k)
            <= Between(upper, lower, 0, k) + Between(upper, lower, 1, k) + Between(upper, lower, 2, k)
  {
    if k > 0 {
      DifferingAtMost(upper, lower, k - 1);
      AboveBucket(upper, lower, k - 1);
    }
  }

  function DifferingTokens(a: seq<nat>, b: seq<nat>): (m: seq<bool>)
    requires |a| == |b|
    ensures |m| == |a| && forall i | 0 <= i < |m| :: m[i] == (a[i] != b[i])
  {
    seq(|a|, i requires 0 <= i < |a| => a[i] != b[i])
  }

  lemma {:induction k} DifferingAlongRanks(
    a: seq<nat>, b: seq<nat>, order: seq<nat>, upper: seq<nat>, lower: seq<nat>, k: nat)
    requires Assigns(a, order, upper) && Assigns(b, order, lower) && k <= |order|
    ensures MarkedAt(DifferingTokens(a, b), order, k) == Differing(upper, lower, k)
  {
  }

  lemma {:induction false} FixedShares(n: nat)
    ensures NonNegative(FIXED) && ValidRatios(FIXED)
    ensures FloorBounds(FIXED, n) == [n / 10, n / 10 + n / 5, n / 10 + n / 5 + n / 2]
  {
    FloorOf(0.1 * n as real, n / 10);
    FloorOf(0.2 * n as real, n / 5);
    FloorOf(0.5 * n as real, n / 2);
    var c := Shares(FIXED, n);
    assert c[0] == n / 10 && c[1] == n / 5 && c[2] == n / 2;
    assert PrefixSum(c, 1) == n / 10;
    assert PrefixSum(c, 2) == n / 10 + n / 5;
    assert PrefixSum(c, 3) == n / 10 + n / 5 + n / 2;
    assert Total(FIXED, 1) == 0.1;
    assert Total(FIXED, 2) == 0.1 + 0.2;
    assert Total(FIXED, 3) == 0.1 + 0.2 + 0.5;
  }

  lemma {:induction false} FloorOf(x: real, k: int)
    requires k as real <= x < k as real + 1.0
    ensures x.Floor == k
  {
  }

  /** The rounded boundaries lie above the floored ones, by five tokens in all at most. */
  lemma {:induction false} FixedBoundsAbove(n: nat)
    ensures Above(RoundBounds(n), FloorBounds(FIXED, n))
    ensures var u, l := RoundBounds(n), FloorBounds(FIXED, n);
            |u| == |l| == 3 && u[0] - l[0] + (u[1] - l[1]) + (u[2] - l[2]) <= 5
  {
    FixedShares(n);
    FloorBoundsAscending(FIXED, n);
    RoundBoundsAscending(n);
    FixedGaps(n);
  }

  lemma {:induction false} FixedGaps(n: nat)
    ensures var l0, l1, l2 := n / 10, n / 10 + n / 5, n / 10 + n / 5 + n / 2;
            var u0, u1, u2 := RoundDiv(n, 10), RoundDiv(3 * n, 10), RoundDiv(8 * n, 10);
            l0 <= u0 && l1 <= u1 && l2 <= u2 && u0 - l0 + (u1 - l1) + (u2 - l2) <= 5
  {
    var q, r := n / 10, n % 10;
    RoundSteps(q, r);
    assert n / 5 == 2 * q + (if r < 5 then 0 else 1);
    assert n / 2 == 5 * q + r / 2;
  }

  lemma {:induction false} BetweenAtMost(upper: seq<nat>, lower: seq<nat>, i: nat, k: nat)
    requires i < |upper| && i < |lower| && lower[i] <= upper[i]
    ensures Between(upper, lower, i, k) <= upper[i] - lower[i]
  {
  }

  /**
   With shares 10/20/50/20, the rounding allocator never gives a token a lower precision than the
   flooring one, and the two differ on at most five tokens.
   */
  lemma {:induction false} AllocatorsDifferOnFive(rounded: seq<nat>, floored: seq<nat>, scores: seq<real>)
    requires Assigns(rounded, DescendingOrder(scores), RoundBounds(|scores|))
    requires Assigns(floored, DescendingOrder(scores), FloorBounds(FIXED, |scores|))
    ensures forall p | 0 <= p < |scores| :: rounded[p] <= floored[p]
    ensures MarkedAt(DifferingTokens(rounded, floored), Identity(|scores|), |scores|) <= 5
  {
    var n, order := |scores|, DescendingOrder(scores);
    var u, l := RoundBounds(n), FloorBounds(FIXED, n);
    DescendingOrderCorrect(scores);
    FixedBoundsAbove(n);
    forall p | 0 <= p < n
      ensures rounded[p] <= floored[p]
    {
      assert p in order;
      var r :| 0 <= r < n && order[r] == p;
      AboveBucket(u, l, r);
    }
    DifferingAlongRanks(rounded, floored, order, u, l, n);
    MarkedAnyOrder(DifferingTokens(rounded, floored), order);
    DifferingWithin(u, l, n);
  }

  lemma {:induction false} DifferingWithin(upper: seq<nat>, lower: seq<nat>, k: nat)
    requires Above(upper, lower) && |upper| == 3
    ensures Differing(upper, lower, k) <= upper[0] - lower[0] + (upper[1] - lower[1]) + (upper[2] - lower[2])
  {
    DifferingAtMost(upper, lower, k);
    BetweenAtMost(upper, lower, 0, k);
    BetweenAtMost(upper, lower, 1, k);
    BetweenAtMost(upper, lower, 2, k);
  }
}
