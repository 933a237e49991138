/**
 Agreement of two bucket assignments: confusion matrix, same-bucket fraction, Cohen's kappa
 and the distance-weighted agreement.
 */
module Agreement {
  import opened Ndcg

  const BUCKETS := 4

  predicate AreBuckets(s: seq<nat>) {
    forall i | 0 <= i < |s| :: s[i] < BUCKETS
  }

  // ---- counts over the first `k` tokens ----

  function Row(left: seq<nat>, b: nat, k: nat): nat
    requires k <= |left|
  {
    if k == 0 then 0 else Row(left, b, k - 1) + (if left[k - 1] == b then 1 else 0)
  }

  function Cell(left: seq<nat>, right: seq<nat>, i: nat, j: nat, k: nat): nat
    requires k <= |left| && k <= |right|
  {
    if k == 0 then 0
    else Cell(left, right, i, j, k - 1) + (if left[k - 1] == i && right[k - 1] == j then 1 else 0)
  }

  function Same(left: seq<nat>, right: seq<nat>, k: nat): nat
    requires k <= |left| && k <= |right|
  {
    if k == 0 then 0 else Same(left, right, k - 1) + (if left[k - 1] == right[k - 1] then 1 else 0)
  }

  function Distance(a: nat, b: nat): nat {
    if a < b then b - a else a - b
  }

  function TotalDistance(left: seq<nat>, right: seq<nat>, k: nat): nat
    requires k <= |left| && k <= |right|
  {
    if k == 0 then 0 else TotalDistance(left, right, k - 1) + Distance(left[k - 1], right[k - 1])
  }

  /** Number of ordered pairs of tokens whose left and right buckets coincide. */
  function Chance(left: seq<nat>, right: seq<nat>): nat
    requires |left| == |right|
  {
    var n := |left|;
    Row(left, 0, n) * Row(right, 0, n) + Row(left, 1, n) * Row(right, 1, n)
    + Row(left, 2, n) * Row(right, 2, n) + Row(left, 3, n) * Row(right, 3, n)
  }

  // ---- the metrics ----

  function Fraction(part: nat, n: nat): real
    requires n > 0
  {
    part as real / n as real
  }

  /** Kappa from the observed agreement and the agreement expected by chance. */
  function KappaReal(observed: real, expected: real): real {
    if expected < 1.0 then (observed - expected) / (1.0 - expected) else 1.0
  }

  /** Kappa from the number of agreeing tokens, the number of agreeing pairs and the sample size. */
  function KappaOf(same: nat, chance: nat, n: nat): real
    requires n > 0
  {
    KappaReal(Fraction(same, n), PairFraction(chance, n))
  }

  function PairFraction(pairs: nat, n: nat): real
    requires n > 0
  {
    NonZero(n);
    pairs as real / (n * n) as real
  }

  lemma {:induction false} NonZero(n: nat)
    requires n > 0
    ensures n * n > 0
  {
  }

  function WeightedOf(distance: nat, n: nat): real
    requires n > 0
  {
    1.0 - distance as real / 3.0 / n as real
  }

  function Observed(left: seq<nat>, right: seq<nat>): real
    requires |left| == |right| > 0
  {
    Fraction(Same(left, right, |left|), |left|)
  }

  function Kappa(left: seq<nat>, right: seq<nat>): real
    requires |left| == |right| > 0
  {
    KappaOf(Same(left, right, |left|), Chance(left, right), |left|)
  }

  function WeightedAgreement(left: seq<nat>, right: seq<nat>): real
    requires |left| == |right| > 0
  {
    WeightedOf(TotalDistance(left, right, |left|), |left|)
  }

  datatype Report = Report(matrix: seq<seq<nat>>, same: real, kappa: real, weighted: real)

  ghost predicate IsConfusion(matrix: seq<seq<nat>>, left: seq<nat>, right: seq<nat>)
    requires |left| == |right|
  {
    && |matrix| == BUCKETS && (forall i | 0 <= i < BUCKETS :: |matrix[i]| == BUCKETS)
    && forall i, j | 0 <= i < BUCKETS && 0 <= j < BUCKETS :: matrix[i][j] == Cell(left, right, i, j, |left|)
  }

  /** The confusion matrix, filled in place. */
  method Confusion(left: seq<nat>, right: seq<nat>) returns (rows: seq<seq<nat>>)
    requires AreBuckets(left) && AreBuckets(right) && |left| == |right|
    ensures IsConfusion(rows, left, right)
  {
    var matrix := new nat[BUCKETS, BUCKETS]((i, j) => 0);
    for k := 0 to |left|
      invariant forall i, j | 0 <= i < BUCKETS && 0 <= j < BUCKETS :: matrix[i, j] == Cell(left, right, i, j, k)
    {
      matrix[left[k], right[k]] := matrix[left[k], right[k]] + 1;
    }
    rows := seq(BUCKETS, i requires 0 <= i < BUCKETS reads matrix =>
      [matrix[i, 0], matrix[i, 1], matrix[i, 2], matrix[i, 3]]);
  }

  method Totals(left: seq<nat>, right: seq<nat>) returns (same: nat, distance: nat)
    requires |left| == |right|
    ensures same == Same(left, right, |left|) && distance == TotalDistance(left, right, |left|)
  {
    same, distance := 0, 0;
    for k := 0 to |left|
      invariant same == Same(left, right, k) && distance == TotalDistance(left, right, k)
    {
      same := same + (if left[k] == right[k] then 1 else 0);
      distance := distance + Distance(left[k], right[k]);
    }
  }

  /** Products of row and column totals of the matrix, summed. */
  method ChanceOf(matrix: seq<seq<nat>>, ghost left: seq<nat>, ghost right: seq<nat>) returns (chance: nat)
    requires |left| == |right| && AreBuckets(left) && AreBuckets(right) && IsConfusion(matrix, left, right)
    ensures chance == Chance(left, right)
  {
    chance := 0;
    for b := 0 to BUCKETS
      invariant chance == ChanceUpTo(left, right, b)
    {
      RowIsCells(left, right, b, |left|);
      ColumnIsCells(left, right, b, |left|);
      var row := matrix[b][0] + matrix[b][1] + matrix[b][2] + matrix[b][3];
      var column := matrix[0][b] + matrix[1][b] + matrix[2][b] + matrix[3][b];
      chance := chance + row * column;
    }
    ChanceUpToAll(left, right);
  }

  lemma {:induction false} ChanceUpToAll(left: seq<nat>, right: seq<nat>)
    requires |left| == |right|
    ensures ChanceUpTo(left, right, 4) == Chance(left, right)
  {
    assert ChanceUpTo(left, right, 2) == ChanceUpTo(left, right, 1) + Row(left, 1, |left|) * Row(right, 1, |left|);
    assert ChanceUpTo(left, right, 3) == ChanceUpTo(left, right, 2) + Row(left, 2, |left|) * Row(right, 2, |left|);
  }

  /** All metrics of two assignments; `ok` is false where the source raises. */
  method BucketAgreement(left: seq<nat>, right: seq<nat>) returns (ok: bool, r: Report)
    requires AreBuckets(left) && AreBuckets(right)
    ensures ok <==> |left| == |right| > 0
    ensures ok ==> r.same == Observed(left, right) && r.kappa == Kappa(left, right)
                   && r.weighted == WeightedAgreement(left, right) && IsConfusion(r.matrix, left, right)
  {
    if |left| != |right| || |left| == 0 {
      return false, Report([], 0.0, 0.0, 0.0);
    }
    var matrix := Confusion(left, right);
    var chance := ChanceOf(matrix, left, right);
    var same, distance := Totals(left, right);
    ok := true;
    r := Report(matrix, Fraction(same, |left|), KappaOf(same, chance, |left|), WeightedOf(distance, |left|));
  }

  function ChanceUpTo(left: seq<nat>, right: seq<nat>, b: nat): nat
    requires |left| == |right|
  {
    if b == 0 then 0
    else ChanceUpTo(left, right, b - 1) + Row(left, b - 1, |left|) * Row(right, b - 1, |left|)
  }

  /** Row totals of the confusion matrix are the bucket sizes of the first list. */
  lemma {:induction k} RowIsCells(left: seq<nat>, right: seq<nat>, b: nat, k: nat)
    requires AreBuckets(right) && k <= |left| && k <= |right|
    ensures Row(left, b, k)
            == Cell(left, right, b, 0, k) + Cell(left, right, b, 1, k) + Cell(left, right, b, 2, k) + Cell(left, right, b, 3, k)
  {
  }

  /** Column totals are the bucket sizes of the second list. */
  lemma {:induction k} ColumnIsCells(left: seq<nat>, right: seq<nat>, b: nat, k: nat)
    requires AreBuckets(left) && k <= |left| && k <= |right|
    ensures Row(right, b, k)
            == Cell(left, right, 0, b, k) + Cell(left, right, 1, b, k) + Cell(left, right, 2, b, k) + Cell(left, right, 3, b, k)
  {
  }

  // ---- facts about the counts ----

  lemma {:induction false} RowsCoverAll(left: seq<nat>, k: nat)
    requires AreBuckets(left) && k <= |left|
    ensures Row(left, 0, k) + Row(left, 1, k) + Row(left, 2, k) + Row(left, 3, k) == k
  {
    if k > 0 {
      RowsCoverAll(left, k - 1);
    }
  }

  lemma {:induction false} DiagonalIsSame(left: seq<nat>, right: seq<nat>, k: nat)
    requires AreBuckets(left) && k <= |left| && k <= |right|
    ensures Cell(left, right, 0, 0, k) + Cell(left, right, 1, 1, k) + Cell(left, right, 2, 2, k)
            + Cell(left, right, 3, 3, k) == Same(left, right, k) <= k
  {
    if k > 0 {
      DiagonalIsSame(left, right, k - 1);
    }
  }

  /** Tokens in bucket `b` on either side number at most all tokens plus those on both sides. */
  lemma {:induction k} EitherSide(left: seq<nat>, right: seq<nat>, b: nat, k: nat)
    requires k <= |left| && k <= |right|
    ensures Row(left, b, k) + Row(right, b, k) <= k + Cell(left, right, b, b, k)
    ensures Row(left, b, k) <= k && Row(right, b, k) <= k
  {
  }

  lemma {:induction k} AllSameIff(left: seq<nat>, right: seq<nat>, k: nat)
    requires k <= |left| && k <= |right|
    ensures Same(left, right, k) <= k
    ensures Same(left, right, k) == k <==> forall i | 0 <= i < k :: left[i] == right[i]
  {
  }

  lemma {:induction k} WholeRow(left: seq<nat>, b: nat, k: nat)
    requires k <= |left|
    ensures Row(left, b, k) <= k
    ensures Row(left, b, k) == k ==> forall i | 0 <= i < k :: left[i] == b
    ensures Row(left, b, k) == 0 ==> forall i | 0 <= i < k :: left[i] != b
  {
  }

  // ---- kappa ----

  lemma {:induction false} ProductBound(r: nat, c: nat, m: nat, n: nat)
    requires r <= n && c <= n && r + c <= n + m
    ensures 4 * (r * c) <= (r + c) * n + 2 * (n * m)
  {
    var t := r + c;
    FourProducts(r, c);
    MulLe(t, n + m, t);
    Distribute(t, n, m);
    MulLe(t, 2 * n, m);
    Distribute(m, n, n);
  }

  lemma {:induction false} FourProducts(r: nat, c: nat)
    ensures 4 * (r * c) <= (r + c) * (r + c)
  {
    assert (r - c) * (r - c) >= 0;
    assert (r + c) * (r + c) == 4 * (r * c) + (r - c) * (r - c);
  }

  lemma {:induction false} Distribute(a: nat, b: nat, c: nat)
    ensures a * (b + c) == a * b + a * c && (b + c) * a == b * a + c * a && a * b == b * a && a * c == c * a
  {
  }

  lemma {:induction false} MulLe(a: nat, b: nat, c: nat)
    requires a <= b
    ensures a * c <= b * c && c * a <= c * b
  {
  }

  /** Twice the chance agreement never exceeds one plus the observed agreement, in counts. */
  lemma {:induction false} ChanceBound(left: seq<nat>, right: seq<nat>)
    requires |left| == |right| && AreBuckets(left) && AreBuckets(right)
    ensures 2 * Chance(left, right) <= |left| * |left| + |left| * Same(left, right, |left|)
  {
    var n := |left|;
    var r0, r1, r2, r3 := Row(left, 0, n), Row(left, 1, n), Row(left, 2, n), Row(left, 3, n);
    var c0, c1, c2, c3 := Row(right, 0, n), Row(right, 1, n), Row(right, 2, n), Row(right, 3, n);
    var m0, m1, m2, m3 := Cell(left, right, 0, 0, n), Cell(left, right, 1, 1, n),
                          Cell(left, right, 2, 2, n), Cell(left, right, 3, 3, n);
    RowsCoverAll(left, n);
    RowsCoverAll(right, n);
    DiagonalIsSame(left, right, n);
    EitherSide(left, right, 0, n);
    EitherSide(left, right, 1, n);
    EitherSide(left, right, 2, n);
    EitherSide(left, right, 3, n);
    DotBound(r0, r1, r2, r3, c0, c1, c2, c3, m0, m1, m2, m3, n);
  }

  lemma {:induction false} DotBound(
    r0: nat, r1: nat, r2: nat, r3: nat, c0: nat, c1: nat, c2: nat, c3: nat,
    m0: nat, m1: nat, m2: nat, m3: nat, n: nat)
    requires r0 + c0 <= n + m0 && r1 + c1 <= n + m1 && r2 + c2 <= n + m2 && r3 + c3 <= n + m3
    requires r0 + r1 + r2 + r3 == n && c0 + c1 + c2 + c3 == n
    ensures 2 * (r0 * c0 + r1 * c1 + r2 * c2 + r3 * c3) <= n * n + n * (m0 + m1 + m2 + m3)
  {
    PairBound(r0, c0, m0, r1, c1, m1, n);
    PairBound(r2, c2, m2, r3, c3, m3, n);
    AddBounds(r0 * c0 + r1 * c1, r0 + c0 + r1 + c1, m0 + m1, r2 * c2 + r3 * c3, r2 + c2 + r3 + c3, m2 + m3, n);
    Twice(n);
  }

  lemma {:induction false} Twice(n: nat)
    ensures (2 * n) * n == 2 * (n * n)
  {
  }

  lemma {:induction false} PairBound(r0: nat, c0: nat, m0: nat, r1: nat, c1: nat, m1: nat, n: nat)
    requires r0 <= n && c0 <= n && r0 + c0 <= n + m0 && r1 <= n && c1 <= n && r1 + c1 <= n + m1
    ensures 4 * (r0 * c0 + r1 * c1) <= (r0 + c0 + r1 + c1) * n + 2 * (n * (m0 + m1))
  {
    ProductBound(r0, c0, m0, n);
    ProductBound(r1, c1, m1, n);
    AddBounds(r0 * c0, r0 + c0, m0, r1 * c1, r1 + c1, m1, n);
  }

  lemma {:induction false} AddBounds(p: int, t: nat, m: nat, p': int, t': nat, m': nat, n: nat)
    requires 4 * p <= t * n + 2 * (n * m) && 4 * p' <= t' * n + 2 * (n * m')
    ensures 4 * (p + p') <= (t + t') * n + 2 * (n * (m + m'))
  {
    assert (t + t') * n == t * n + t' * n;
    assert n * (m + m') == n * m + n * m';
  }

  lemma {:induction false} Sum4(a: nat, b: nat, c: nat, d: nat, n: nat)
    ensures a * n + b * n + c * n + d * n == (a + b + c + d) * n
    ensures n * a + n * b + n * c + n * d == n * (a + b + c + d)
  {
  }

  /** Chance agreement is at most all pairs, and all pairs only if both lists are one and the same bucket. */
  lemma {:induction false} ChanceAtMostAll(left: seq<nat>, right: seq<nat>)
    requires |left| == |right| && AreBuckets(left) && AreBuckets(right)
    ensures Chance(left, right) <= |left| * |left|
    ensures Chance(left, right) == |left| * |left| ==> left == right
  {
    var n := |left|;
    var r0, r1, r2, r3 := Row(left, 0, n), Row(left, 1, n), Row(left, 2, n), Row(left, 3, n);
    var c0, c1, c2, c3 := Row(right, 0, n), Row(right, 1, n), Row(right, 2, n), Row(right, 3, n);
    RowsCoverAll(left, n);
    RowsCoverAll(right, n);
    Slack(r0, c0, n);
    Slack(r1, c1, n);
    Slack(r2, c2, n);
    Slack(r3, c3, n);
    Sum4(r0, r1, r2, r3, n);
    if Chance(left, right) == n * n && n > 0 {
      forall i | 0 <= i < n
        ensures left[i] == right[i]
      {
        WholeRow(left, left[i], n);
        WholeRow(right, left[i], n);
        assert Row(right, left[i], n) == n;
      }
    }
  }

  lemma {:induction false} Slack(r: nat, c: nat, n: nat)
    requires c <= n
    ensures r * c <= r * n && (r * c == r * n ==> r == 0 || c == n)
  {
    MulLe(c, n, r);
  }

  lemma {:induction false} Cancel(a: real, b: real, c: real)
    requires c > 0.0
    ensures a * c <= b * c ==> a <= b
    ensures a * c < b * c ==> a < b
    ensures a * c == b * c ==> a == b
  {
    if a > b {
      ScaleStrict(a, b, c);
    } else if a < b {
      ScaleStrict(b, a, c);
    }
  }

  lemma {:induction false} Divided(a: real, b: real)
    requires b > 0.0
    ensures a / b * b == a
  {
  }

  /** The observed and expected agreement of possible counts; `q` and `t` stand for n*n and n*s. */
  lemma {:induction false} Fractions(s: real, e: real, n: real, q: real, t: real)
    requires n > 0.0 && q > 0.0 && q == n * n && t == n * s && s <= n && e <= q && 2.0 * e <= q + t
    ensures s / n <= 1.0 && (s / n == 1.0 <==> s == n)
    ensures e / q <= 1.0 && (e / q == 1.0 <==> e == q)
    ensures 2.0 * (e / q) <= 1.0 + s / n
  {
    var o, x := s / n, e / q;
    Divided(s, n);
    Divided(e, q);
    Cancel(x, 1.0, q);
    Cancel(o, 1.0, n);
    assert t == o * q by {
      assert n * (o * n) == o * (n * n);
    }
    Cancel(2.0 * x, 1.0 + o, q);
    assert (2.0 * x) * q == 2.0 * (x * q) && (1.0 + o) * q == q + o * q;
  }

  lemma {:induction false} KappaRealBounded(o: real, x: real)
    requires o <= 1.0 && x <= 1.0 && 2.0 * x <= 1.0 + o
    ensures -1.0 <= KappaReal(o, x) <= 1.0
    ensures KappaReal(o, x) == 1.0 <==> o == 1.0 || x == 1.0
  {
    if x < 1.0 {
      Quotient(o - x, 1.0 - x);
    }
  }

  lemma {:induction false} Quotient(a: real, b: real)
    requires b > 0.0 && -b <= a <= b
    ensures -1.0 <= a / b <= 1.0 && (a / b == 1.0 <==> a == b)
  {
    Divided(a, b);
    Cancel(a / b, 1.0, b);
    Cancel(-1.0, a / b, b);
  }

  lemma {:induction false} CastProduct(a: nat, b: nat)
    ensures (a * b) as real == a as real * b as real
  {
    if a > 0 {
      CastProduct(a - 1, b);
      assert a * b == (a - 1) * b + b;
      assert a as real * b as real == (a - 1) as real * b as real + b as real;
    }
  }

  lemma {:induction false} FractionsOf(s: nat, c: nat, n: nat)
    requires n > 0 && s <= n && c <= n * n && 2 * c <= n * n + n * s
    ensures Fraction(s, n) <= 1.0 && (Fraction(s, n) == 1.0 <==> s == n)
    ensures PairFraction(c, n) <= 1.0 && (PairFraction(c, n) == 1.0 <==> c == n * n)
    ensures 2.0 * PairFraction(c, n) <= 1.0 + Fraction(s, n)
  {
    CastProduct(n, n);
    CastProduct(n, s);
    NonZero(n);
    Fractions(s as real, c as real, n as real, (n * n) as real, (n * s) as real);
  }

  lemma {:induction false} KappaOfBounded(s: nat, c: nat, n: nat)
    requires n > 0 && s <= n && c <= n * n && 2 * c <= n * n + n * s
    ensures -1.0 <= KappaOf(s, c, n) <= 1.0
    ensures KappaOf(s, c, n) == 1.0 <==> s == n || c == n * n
  {
    FractionsOf(s, c, n);
    KappaRealBounded(Fraction(s, n), PairFraction(c, n));
  }

  /** Kappa lies in [-1, 1] and is 1 exactly if the two assignments are the same. */
  lemma {:induction false} KappaBounded(left: seq<nat>, right: seq<nat>)
    requires |left| == |right| > 0 && AreBuckets(left) && AreBuckets(right)
    ensures -1.0 <= Kappa(left, right) <= 1.0
    ensures Kappa(left, right) == 1.0 <==> left == right
  {
    ChanceBound(left, right);
    ChanceAtMostAll(left, right);
    AllSameIff(left, right, |left|);
    KappaOfBounded(Same(left, right, |left|), Chance(left, right), |left|);
  }

  /** Swapping the two lists transposes the confusion matrix and leaves every metric alone. */
  lemma {:induction false} Swap(left: seq<nat>, right: seq<nat>)
    requires |left| == |right| > 0
    ensures Kappa(left, right) == Kappa(right, left) && Observed(left, right) == Observed(right, left)
    ensures WeightedAgreement(left, right) == WeightedAgreement(right, left)
    ensures forall i: nat, j: nat :: Cell(left, right, i, j, |left|) == Cell(right, left, j, i, |left|)
  {
    SwapCounts(left, right, |left|);
    forall i: nat, j: nat
      ensures Cell(left, right, i, j, |left|) == Cell(right, left, j, i, |left|)
    {
      SwapCell(left, right, i, j, |left|);
    }
  }

  lemma {:induction k} SwapCounts(left: seq<nat>, right: seq<nat>, k: nat)
    requires k <= |left| && k <= |right|
    ensures Same(left, right, k) == Same(right, left, k)
    ensures TotalDistance(left, right, k) == TotalDistance(right, left, k)
  {
  }

  lemma {:induction k} SwapCell(left: seq<nat>, right: seq<nat>, i: nat, j: nat, k: nat)
    requires k <= |left| && k <= |right|
    ensures Cell(left, right, i, j, k) == Cell(right, left, j, i, k)
  {
  }

  lemma {:induction false} DistanceBound(left: seq<nat>, right: seq<nat>, k: nat)
    requires AreBuckets(left) && AreBuckets(right) && k <= |left| && k <= |right|
    ensures TotalDistance(left, right, k) <= 3 * (k - Same(left, right, k))
  {
    if k > 0 {
      DistanceBound(left, right, k - 1);
    }
  }

  /** Weighted agreement is at least the same-bucket fraction, and at most 1. */
  lemma {:induction false} WeightedAtLeastSame(left: seq<nat>, right: seq<nat>)
    requires |left| == |right| > 0 && AreBuckets(left) && AreBuckets(right)
    ensures Observed(left, right) <= WeightedAgreement(left, right) <= 1.0
  {
    var n := |left|;
    DistanceBound(left, right, n);
    WeightedArithmetic(TotalDistance(left, right, n) as real, Same(left, right, n) as real, n as real);
  }

  lemma {:induction false} WeightedArithmetic(t: real, s: real, n: real)
    requires n > 0.0 && 0.0 <= t <= 3.0 * (n - s)
    ensures s / n <= 1.0 - t / 3.0 / n <= 1.0
  {
    var x, o := t / 3.0 / n, s / n;
    Divided(t / 3.0, n);
    Divided(s, n);
    Cancel(o, 1.0 - x, n);
    assert (1.0 - x) * n == n - x * n;
    Cancel(0.0, x, n);
  }
}
