/** Tie-averaged ranks by sort and scan, and Spearman's correlation built on them. */
module Ranks {
  import opened Text
  import opened Arithmetic
  import opened Ordering

  // ---- ranks by counting ----

  /** What a value `y` adds to the rank of `x`: one when smaller, a half when equal. */
  function Share(y: real, x: real): real {
    if y < x then 1.0 else if y == x then 0.5 else 0.0
  }

  /** The shares of the first `m` values in the rank of `x`. */
  function Shares(v: seq<real>, m: nat, x: real): real
    requires m <= |v|
  {
    if m == 0 then 0.0 else Shares(v, m - 1, x) + Share(v[m - 1], x)
  }

  function Smaller(v: seq<real>, m: nat, x: real): nat
    requires m <= |v|
  {
    if m == 0 then 0 else Smaller(v, m - 1, x) + if v[m - 1] < x then 1 else 0
  }

  function Equal(v: seq<real>, m: nat, x: real): nat
    requires m <= |v|
  {
    if m == 0 then 0 else Equal(v, m - 1, x) + if v[m - 1] == x then 1 else 0
  }

  /** The number of smaller values, and the middle of the places that the equal ones share. */
  function Rank(v: seq<real>, p: nat): real
    requires p < |v|
  {
    Smaller(v, |v|, v[p]) as real + (Equal(v, |v|, v[p]) + 1) as real / 2.0
  }

  lemma {:induction false} SharesCount(v: seq<real>, m: nat, x: real)
    requires m <= |v|
    ensures Shares(v, m, x) == Smaller(v, m, x) as real + Equal(v, m, x) as real / 2.0
    decreases m
  {
    if m > 0 {
      SharesCount(v, m - 1, x);
    }
  }

  lemma {:induction false} RankIsShares(v: seq<real>, p: nat)
    requires p < |v|
    ensures Rank(v, p) == Shares(v, |v|, v[p]) + 0.5
  {
    SharesCount(v, |v|, v[p]);
  }

  // ---- ranks add up ----

  /** The shares of the first `n` values in the ranks of the first `m`. */
  function AllShares(v: seq<real>, n: nat, m: nat): real
    requires n <= |v| && m <= |v|
    decreases m
  {
    if m == 0 then 0.0 else AllShares(v, n, m - 1) + Shares(v, n, v[m - 1])
  }

  /** What value number `n` gives to the first `m` ranks and gets from as many values. */
  lemma {:induction false} MutualShares(v: seq<real>, n: nat, m: nat)
    requires n < |v| && m <= |v|
    ensures AllShares(v, n + 1, m) + Shares(v, m, v[n]) == AllShares(v, n, m) + m as real
    decreases m
  {
    if m > 0 {
      MutualShares(v, n, m - 1);
    }
  }

  lemma {:induction false} AllSharesSum(v: seq<real>, n: nat)
    requires n <= |v|
    ensures AllShares(v, n, n) == (n * n) as real / 2.0
    decreases n
  {
    if n > 0 {
      AllSharesSum(v, n - 1);
      MutualShares(v, n - 1, n - 1);
      assert n * n == (n - 1) * (n - 1) + 2 * (n - 1) + 1;
    }
  }

  function RankSum(v: seq<real>, m: nat): real
    requires m <= |v|
  {
    if m == 0 then 0.0 else RankSum(v, m - 1) + Rank(v, m - 1)
  }

  lemma {:induction false} RankSumShares(v: seq<real>, m: nat)
    requires m <= |v|
    ensures RankSum(v, m) == AllShares(v, |v|, m) + m as real / 2.0
    decreases m
  {
    if m > 0 {
      RankSumShares(v, m - 1);
      RankIsShares(v, m - 1);
    }
  }

  /** Ties or not, the ranks add up to `n (n + 1) / 2`. */
  lemma {:induction false} RanksAddUp(v: seq<real>)
    ensures RankSum(v, |v|) == (|v| * (|v| + 1)) as real / 2.0
  {
    var n := |v|;
    RankSumShares(v, n);
    AllSharesSum(v, n);
    assert n * (n + 1) == n * n + n;
  }

  // ---- ranks see the order of the values only ----

  ghost predicate Increasing(f: real -> real) {
    forall x: real, y: real :: x < y ==> f(x) < f(y)
  }

  function Mapped(f: real -> real, v: seq<real>): seq<real> {
    seq(|v|, i requires 0 <= i < |v| => f(v[i]))
  }

  lemma {:induction false} SharesMapped(f: real -> real, v: seq<real>, m: nat, x: real)
    requires Increasing(f) && m <= |v|
    ensures Shares(Mapped(f, v), m, f(x)) == Shares(v, m, x)
    decreases m
  {
    if m > 0 {
      SharesMapped(f, v, m - 1, x);
      var y := v[m - 1];
      assert y < x ==> f(y) < f(x);
      assert x < y ==> f(x) < f(y);
    }
  }

  /** A strictly increasing change of scale leaves every rank as it is. */
  lemma {:induction false} RankInvariant(f: real -> real, v: seq<real>, p: nat)
    requires Increasing(f) && p < |v|
    ensures Rank(Mapped(f, v), p) == Rank(v, p)
  {
    RankIsShares(v, p);
    RankIsShares(Mapped(f, v), p);
    SharesMapped(f, v, |v|, v[p]);
  }

  // ---- sort and scan ----

  /** Positions `c` to `e` of a sorted order hold equal values, and no others do. */
  predicate IsGroup(v: seq<real>, o: seq<nat>, c: nat, e: nat)
    requires InRange(o, |v|)
  {
    && c < e <= |o|
    && (forall i | 0 <= i < c :: v[o[i]] < v[o[c]])
    && (forall i | c <= i < e :: v[o[i]] == v[o[c]])
    && (forall i | e <= i < |o| :: v[o[c]] < v[o[i]])
  }

  function ShareVector(v: seq<real>, x: real): seq<real> {
    seq(|v|, i requires 0 <= i < |v| => Share(v[i], x))
  }

  lemma {:induction false} SharesInPlace(v: seq<real>, m: nat, x: real, id: seq<nat>)
    requires m <= |v| && |id| == |v| && forall i | 0 <= i < |id| :: id[i] == i
    ensures SumAt(ShareVector(v, x), id, m) == Shares(v, m, x)
    decreases m
  {
    if m > 0 {
      SharesInPlace(v, m - 1, x, id);
    }
  }

  /** The shares do not depend on the order in which the values are visited. */
  lemma {:induction false} SharesInOrder(v: seq<real>, o: seq<nat>, x: real)
    requires IsPermutation(o, |v|)
    ensures SumAt(ShareVector(v, x), o, |v|) == Shares(v, |v|, x)
  {
    var id: seq<nat> := seq(|v|, i => i);
    forall p | 0 <= p < |v|
      ensures p in id
    {
      assert id[p] == p;
    }
    SumAtPermutation(ShareVector(v, x), o, id);
    SharesInPlace(v, |v|, x, id);
  }

  lemma {:induction false} GroupShares(v: seq<real>, o: seq<nat>, c: nat, e: nat, m: nat)
    requires IsPermutation(o, |v|) && IsGroup(v, o, c, e) && m <= |v|
    ensures SumAt(ShareVector(v, v[o[c]]), o, m)
            == if m <= c then m as real else if m <= e then c as real + (m - c) as real / 2.0 else c as real + (e - c) as real / 2.0
    decreases m
  {
    if m > 0 {
      GroupShares(v, o, c, e, m - 1);
    }
  }

  /** All members of a group have the middle rank of its places. */
  lemma {:induction false} GroupRank(v: seq<real>, o: seq<nat>, c: nat, e: nat, j: nat)
    requires IsPermutation(o, |v|) && IsGroup(v, o, c, e) && c <= j < e
    ensures Rank(v, o[j]) == (c + 1 + e) as real / 2.0
  {
    RankIsShares(v, o[j]);
    SharesInOrder(v, o, v[o[c]]);
    GroupShares(v, o, c, e, |v|);
  }

  /** A stretch of equal values that cannot be extended is a group. */
  lemma {:induction false} StretchIsGroup(v: seq<real>, o: seq<nat>, c: nat, e: nat)
    requires IsPermutation(o, |v|) && IsSorted(v, o) && c < e <= |o|
    requires forall i | c <= i < e :: v[o[i]] == v[o[c]]
    requires (c > 0 ==> v[o[c - 1]] != v[o[c]]) && (e < |o| ==> v[o[e]] != v[o[c]])
    ensures IsGroup(v, o, c, e)
  {
    forall i | 0 <= i < c
      ensures v[o[i]] < v[o[c]]
    {
      assert Precedes(v, o[c - 1], o[c]);
      assert i < c - 1 ==> Precedes(v, o[i], o[c - 1]);
    }
    forall i | e <= i < |o|
      ensures v[o[c]] < v[o[i]]
    {
      assert Precedes(v, o[c], o[e]);
      assert e < i ==> Precedes(v, o[e], o[i]);
    }
  }

  /** The first position after `c` whose value differs. */
  method ScanEqual(v: seq<real>, o: seq<nat>, c: nat) returns (e: nat)
    requires InRange(o, |v|) && c < |o|
    ensures c < e <= |o| && (forall i | c <= i < e :: v[o[i]] == v[o[c]])
    ensures e < |o| ==> v[o[e]] != v[o[c]]
  {
    e := c + 1;
    while e < |o| && v[o[e]] == v[o[c]]
      invariant c < e <= |o| && forall i | c <= i < e :: v[o[i]] == v[o[c]]
    {
      e := e + 1;
    }
  }

  /** Every position among the first `k` of the order has its rank. */
  predicate Ranked(v: seq<real>, o: seq<nat>, ranks: seq<real>, k: nat)
    requires InRange(o, |v|) && |ranks| == |v| && k <= |o|
  {
    forall i | 0 <= i < k :: ranks[o[i]] == Rank(v, o[i])
  }

  lemma {:induction false} RankedNext(v: seq<real>, o: seq<nat>, ranks: seq<real>, k: nat, r: real)
    requires IsPermutation(o, |v|) && |ranks| == |v| && k < |o|
    requires Ranked(v, o, ranks, k) && Rank(v, o[k]) == r
    ensures Ranked(v, o, ranks[o[k] := r], k + 1)
  {
  }

  method AverageRanks(v: seq<real>) returns (ranks: seq<real>)
    ensures |ranks| == |v| && forall p | 0 <= p < |v| :: ranks[p] == Rank(v, p)
  {
    var o := ArgSort(v);
    ArgSortCorrect(v);
    ranks := seq(|v|, _ => 0.0);
    var cursor := 0;
    while cursor < |o|
      invariant cursor <= |o| && |ranks| == |v| && Ranked(v, o, ranks, cursor)
      invariant 0 < cursor < |o| ==> v[o[cursor - 1]] != v[o[cursor]]
    {
      var end := ScanEqual(v, o, cursor);
      var rank := (cursor + 1 + end) as real / 2.0;
      StretchIsGroup(v, o, cursor, end);
      for position := cursor to end
        invariant |ranks| == |v| && Ranked(v, o, ranks, position)
      {
        GroupRank(v, o, cursor, end, position);
        RankedNext(v, o, ranks, position, rank);
        ranks := ranks[o[position] := rank];
      }
      cursor := end;
    }
    forall p | 0 <= p < |v|
      ensures ranks[p] == Rank(v, p)
    {
      assert p in o;
      var i :| 0 <= i < |o| && o[i] == p;
    }
  }

  // ---- correlation ----

  function Sum(s: seq<real>, m: nat): real
    requires m <= |s|
  {
    if m == 0 then 0.0 else Sum(s, m - 1) + s[m - 1]
  }

  /** The deviations from `a`. */
  function Deviations(x: seq<real>, a: real): seq<real> {
    seq(|x|, i requires 0 <= i < |x| => x[i] - a)
  }

  /** The sum of products of the first `m` pairs. */
  function Products(x: seq<real>, y: seq<real>, m: nat): real
    requires m <= |x| && m <= |y|
  {
    if m == 0 then 0.0 else Products(x, y, m - 1) + x[m - 1] * y[m - 1]
  }

  lemma {:induction false} Square(a: real)
    ensures a * a >= 0.0
  {
  }

  /** A named product: equal factors give equal products. */
  function Mul(a: real, b: real): real {
    a * b
  }

  lemma {:induction false} SameSign(a: real, b: real)
    requires (a > 0.0 && b > 0.0) || (a < 0.0 && b < 0.0)
    ensures Mul(a, b) > 0.0
  {
  }

  lemma {:induction false} SquareAtMost(c: real, z: real)
    requires Mul(c, c) <= z && z == 0.0
    ensures c == 0.0
  {
    if c != 0.0 {
      SameSign(c, c);
    }
  }

  lemma {:induction false} NoSquareBelow(a: real, u: real, c: real)
    requires a == 0.0 && c * c <= a * u
    ensures c == 0.0
  {
    assert Mul(a, u) == Mul(0.0, u) == 0.0;
    assert Mul(c, c) <= Mul(a, u);
    SquareAtMost(c, Mul(a, u));
  }

  lemma {:induction false} Expand(u: real, a: real, c: real, p: real, q: real)
    ensures a * (a * q * q + u * p * p - 2.0 * c * p * q) == (a * q - c * p) * (a * q - c * p) + (u * a - c * c) * (p * p)
  {
  }

  lemma {:induction false} PositiveFactor(a: real, z: real)
    requires a > 0.0 && a * z >= 0.0
    ensures z >= 0.0
  {
  }

  lemma {:induction false} ZeroCase(a: real, u: real, c: real, p: real, q: real)
    requires u >= 0.0 && a == 0.0 && c == 0.0
    ensures 2.0 * c * p * q <= a * q * q + u * p * p
  {
    Square(p);
    ProductAtLeastZero(u, p * p);
  }

  /** The mixed term of one more pair of deviations. */
  lemma {:induction false} Mixed(a: real, u: real, c: real, p: real, q: real)
    requires a >= 0.0 && u >= 0.0 && c * c <= a * u
    ensures 2.0 * c * p * q <= a * q * q + u * p * p
  {
    if a == 0.0 {
      NoSquareBelow(a, u, c);
      ZeroCase(a, u, c, p, q);
    } else {
      var d := a * q - c * p;
      Square(d);
      Square(p);
      ProductAtLeastZero(u * a - c * c, p * p);
      Expand(u, a, c, p, q);
      PositiveFactor(a, a * q * q + u * p * p - 2.0 * c * p * q);
    }
  }

  /** The square of `c` is at most the product of `a` and `u`. */
  predicate Bounded(a: real, u: real, c: real) {
    a >= 0.0 && u >= 0.0 && c * c <= a * u
  }

  lemma {:induction false} SquareOfSum(c: real, z: real)
    ensures (c + z) * (c + z) == c * c + 2.0 * c * z + z * z
  {
  }

  lemma {:induction false} ProductOfSums(a: real, u: real, pp: real, qq: real)
    ensures (a + pp) * (u + qq) == a * u + a * qq + u * pp + pp * qq
  {
  }

  /** The inequality with one more pair of deviations. */
  lemma {:induction false} CauchyStep(a: real, u: real, c: real, p: real, q: real)
    requires Bounded(a, u, c)
    ensures Bounded(a + p * p, u + q * q, c + p * q)
  {
    Mixed(a, u, c, p, q);
    Square(p);
    Square(q);
    SquareOfSum(c, p * q);
    ProductOfSums(a, u, p * p, q * q);
    Rearrange(a, u, c, p, q);
  }

  lemma {:induction false} Rearrange(a: real, u: real, c: real, p: real, q: real)
    ensures 2.0 * c * (p * q) == 2.0 * c * p * q && a * (q * q) == a * q * q && u * (p * p) == u * p * p
    ensures (p * q) * (p * q) == (p * p) * (q * q)
  {
  }

  /** The sum of products squared never exceeds the product of the two sums of squares. */
  lemma {:induction false} Cauchy(x: seq<real>, y: seq<real>, m: nat)
    requires m <= |x| && m <= |y|
    ensures Bounded(Products(x, x, m), Products(y, y, m), Products(x, y, m))
    decreases m
  {
    if m > 0 {
      Cauchy(x, y, m - 1);
      CauchyStep(Products(x, x, m - 1), Products(y, y, m - 1), Products(x, y, m - 1), x[m - 1], y[m - 1]);
    }
  }

  /** Numerator and squared denominator of a correlation. */
  datatype Correlation = Correlation(numerator: real, square: real)

  method Totals(s: seq<real>) returns (total: real)
    ensures total == Sum(s, |s|)
  {
    total := 0.0;
    for i := 0 to |s|
      invariant total == Sum(s, i)
    {
      total := total + s[i];
    }
  }

  method SumProducts(x: seq<real>, a: real, y: seq<real>, b: real) returns (total: real)
    requires |x| == |y|
    ensures total == Products(Deviations(x, a), Deviations(y, b), |x|)
  {
    total := 0.0;
    for i := 0 to |x|
      invariant total == Products(Deviations(x, a), Deviations(y, b), i)
    {
      total := total + (x[i] - a) * (y[i] - b);
    }
  }

  function RanksOf(v: seq<real>): seq<real> {
    seq(|v|, p requires 0 <= p < |v| => Rank(v, p))
  }

  function Mean(n: nat): real {
    (n + 1) as real / 2.0
  }

  lemma {:induction false} RanksTotal(v: seq<real>, m: nat)
    requires m <= |v|
    ensures Sum(RanksOf(v), m) == RankSum(v, m)
    decreases m
  {
    if m > 0 {
      RanksTotal(v, m - 1);
    }
  }

  lemma {:induction false} MeanOfRanks(v: seq<real>)
    requires v != []
    ensures Sum(RanksOf(v), |v|) / |v| as real == Mean(|v|)
  {
    RanksTotal(v, |v|);
    RanksAddUp(v);
    HalfProduct(|v|);
  }

  lemma {:induction false} HalfProduct(n: nat)
    requires n > 0
    ensures (n * (n + 1)) as real / 2.0 / n as real == Mean(n)
  {
    assert (n * (n + 1)) as real == n as real * (n + 1) as real;
    var a, b := n as real, (n + 1) as real;
    assert a * b / 2.0 == a * (b / 2.0);
    assert a * (b / 2.0) / a == b / 2.0;
  }

  /** The correlation of two lists of deviations. */
  function CorrelationOf(x: seq<real>, y: seq<real>): Option<Correlation>
    requires |x| == |y|
  {
    var square := Mul(Products(x, x, |x|), Products(y, y, |x|));
    if square > 0.0 then Some(Correlation(Products(x, y, |x|), square)) else None
  }

  /** The absolute value of the correlation is at most one, whatever the values and their ties. */
  lemma {:induction false} CorrelationBounded(x: seq<real>, y: seq<real>)
    requires |x| == |y| && CorrelationOf(x, y).Some?
    ensures var r := CorrelationOf(x, y).value; r.numerator * r.numerator <= r.square
  {
    Cauchy(x, y, |x|);
  }

  /** The quotient by the root of the denominator is in [-1, 1]. */
  lemma {:induction false} QuotientBounded(x: seq<real>, y: seq<real>, root: real, rho: real)
    requires |x| == |y| && CorrelationOf(x, y).Some?
    requires root > 0.0 && Mul(root, root) == CorrelationOf(x, y).value.square
    requires Mul(rho, root) == CorrelationOf(x, y).value.numerator
    ensures -1.0 <= rho <= 1.0
  {
    CorrelationBounded(x, y);
    if rho > 1.0 {
      Larger(rho, root);
    } else if rho < -1.0 {
      Larger(-rho, root);
    }
  }

  lemma {:induction false} LargerSquare(v: real, root: real)
    requires v > root > 0.0
    ensures v * v > root * root
  {
    assert v * (v - root) > 0.0;
    assert (v - root) * root > 0.0;
  }

  lemma {:induction false} Larger(rho: real, root: real)
    requires rho > 1.0 && root > 0.0
    ensures (rho * root) * (rho * root) > root * root
  {
    assert (rho - 1.0) * root > 0.0;
    LargerSquare(rho * root, root);
  }

  method Correlate(x: seq<real>, meanX: real, y: seq<real>, meanY: real) returns (r: Option<Correlation>)
    requires |x| == |y|
    ensures r == CorrelationOf(Deviations(x, meanX), Deviations(y, meanY))
  {
    var numerator := SumProducts(x, meanX, y, meanY);
    var dx := SumProducts(x, meanX, x, meanX);
    var dy := SumProducts(y, meanY, y, meanY);
    var square := Mul(dx, dy);
    r := if square > 0.0 then Some(Correlation(numerator, square)) else None;
  }

  /** The correlation of the tie-averaged ranks, up to the square root of its denominator. */
  function SpearmanOf(xs: seq<real>, ys: seq<real>): Option<Correlation> {
    if |xs| == |ys| && |xs| >= 2
    then CorrelationOf(Deviations(RanksOf(xs), Mean(|xs|)), Deviations(RanksOf(ys), Mean(|ys|)))
    else None
  }

  /** A square root, as the mathematics library has it. */
  ghost predicate IsRoot(root: real -> real) {
    forall x: real | x >= 0.0 :: root(x) >= 0.0 && Mul(root(x), root(x)) == x
  }

  method SpearmanParts(xs: seq<real>, ys: seq<real>) returns (r: Option<Correlation>)
    ensures r == SpearmanOf(xs, ys)
  {
    if |xs| != |ys| || |xs| < 2 {
      return None;
    }
    var x := AverageRanks(xs);
    var y := AverageRanks(ys);
    assert x == RanksOf(xs) && y == RanksOf(ys);
    var sumX := Totals(x);
    var sumY := Totals(y);
    MeanOfRanks(xs);
    MeanOfRanks(ys);
    r := Correlate(x, sumX / |x| as real, y, sumY / |y| as real);
  }

  /** Spearman's correlation: in [-1, 1], and undefined exactly for lists that do not match, are short or are constant. */
  method Spearman(xs: seq<real>, ys: seq<real>, root: real -> real) returns (r: Option<real>)
    requires IsRoot(root)
    ensures r.None? <==> |xs| != |ys| || |xs| < 2 || Constant(xs) || Constant(ys)
    ensures r.Some? ==> SpearmanOf(xs, ys).Some? && -1.0 <= r.value <= 1.0
                        && var c := SpearmanOf(xs, ys).value; Mul(r.value, root(c.square)) == c.numerator
  {
    var c := SpearmanParts(xs, ys);
    SpearmanNoneIff(xs, ys);
    if c.None? {
      return None;
    }
    var denominator := root(c.value.square);
    PositiveRoot(denominator, c.value.square);
    var rho := c.value.numerator / denominator;
    QuotientTimes(c.value.numerator, denominator);
    QuotientBounded(Deviations(RanksOf(xs), Mean(|xs|)), Deviations(RanksOf(ys), Mean(|ys|)), denominator, rho);
    r := Some(rho);
  }

  lemma {:induction false} PositiveRoot(d: real, x: real)
    requires d >= 0.0 && Mul(d, d) == x > 0.0
    ensures d > 0.0
  {
  }

  lemma {:induction false} QuotientTimes(a: real, b: real)
    requires b > 0.0
    ensures Mul(a / b, b) == a
  {
  }

  // ---- when the correlation is undefined ----

  predicate Constant(v: seq<real>) {
    forall p, q | 0 <= p < |v| && 0 <= q < |v| :: v[p] == v[q]
  }

  lemma {:induction false} ConstantCounts(v: seq<real>, m: nat, x: real)
    requires m <= |v| && forall p | 0 <= p < |v| :: v[p] == x
    ensures Smaller(v, m, x) == 0 && Equal(v, m, x) == m
    decreases m
  {
    if m > 0 {
      ConstantCounts(v, m - 1, x);
    }
  }

  lemma {:induction false} ConstantRanks(v: seq<real>, p: nat)
    requires Constant(v) && p < |v|
    ensures Rank(v, p) == Mean(|v|)
  {
    ConstantCounts(v, |v|, v[p]);
  }

  /** Everything up to a smaller value is smaller. */
  lemma {:induction false} SmallerGrows(v: seq<real>, m: nat, x: real, y: real)
    requires m <= |v| && x < y
    ensures Smaller(v, m, y) >= Smaller(v, m, x) + Equal(v, m, x)
    decreases m
  {
    if m > 0 {
      SmallerGrows(v, m - 1, x, y);
    }
  }

  lemma {:induction false} EqualSelf(v: seq<real>, m: nat, p: nat)
    requires p < m <= |v|
    ensures Equal(v, m, v[p]) >= 1
    decreases m
  {
    if p < m - 1 {
      EqualSelf(v, m - 1, p);
    }
  }

  lemma {:induction false} RankGrows(v: seq<real>, p: nat, q: nat)
    requires p < |v| && q < |v| && v[p] < v[q]
    ensures Rank(v, p) < Rank(v, q)
  {
    SmallerGrows(v, |v|, v[p], v[q]);
    EqualSelf(v, |v|, p);
    EqualSelf(v, |v|, q);
  }

  lemma {:induction false} SquaresSum(d: seq<real>, m: nat)
    requires m <= |d|
    ensures Products(d, d, m) >= 0.0 && (Products(d, d, m) == 0.0 <==> forall i | 0 <= i < m :: d[i] == 0.0)
    decreases m
  {
    if m > 0 {
      SquaresSum(d, m - 1);
      SquareZero(d[m - 1]);
    }
  }

  lemma {:induction false} SquareZero(a: real)
    ensures a * a >= 0.0 && (a * a == 0.0 <==> a == 0.0)
  {
    if a != 0.0 {
      SameSign(a, a);
    }
  }

  /** The ranks do not vary exactly when the values do not. */
  lemma {:induction false} NoVariationIff(v: seq<real>)
    ensures Products(Deviations(RanksOf(v), Mean(|v|)), Deviations(RanksOf(v), Mean(|v|)), |v|) == 0.0 <==> Constant(v)
  {
    var d := Deviations(RanksOf(v), Mean(|v|));
    SquaresSum(d, |v|);
    if Constant(v) {
      forall i | 0 <= i < |v|
        ensures d[i] == 0.0
      {
        ConstantRanks(v, i);
      }
    } else {
      var p: nat, q: nat :| p < |v| && q < |v| && v[p] != v[q];
      if v[p] < v[q] {
        RankGrows(v, p, q);
      } else {
        RankGrows(v, q, p);
      }
      assert d[p] != d[q];
    }
  }

  lemma {:induction false} PositiveIff(a: real, b: real)
    requires a >= 0.0 && b >= 0.0
    ensures Mul(a, b) > 0.0 <==> a != 0.0 && b != 0.0
  {
    if a != 0.0 && b != 0.0 {
      SameSign(a, b);
    }
  }

  lemma {:induction false} SpearmanNoneIff(xs: seq<real>, ys: seq<real>)
    ensures SpearmanOf(xs, ys).None? <==> |xs| != |ys| || |xs| < 2 || Constant(xs) || Constant(ys)
  {
    if |xs| == |ys| && |xs| >= 2 {
      var x, y := Deviations(RanksOf(xs), Mean(|xs|)), Deviations(RanksOf(ys), Mean(|ys|));
      NoVariationIff(xs);
      NoVariationIff(ys);
      SquaresSum(x, |x|);
      SquaresSum(y, |y|);
      PositiveIff(Products(x, x, |x|), Products(y, y, |y|));
    }
  }

  lemma {:induction false} RanksInvariant(f: real -> real, xs: seq<real>)
    requires Increasing(f)
    ensures RanksOf(Mapped(f, xs)) == RanksOf(xs)
  {
    forall p | 0 <= p < |xs|
      ensures Rank(Mapped(f, xs), p) == Rank(xs, p)
    {
      RankInvariant(f, xs, p);
    }
  }

  /** Strictly increasing changes of scale of either list leave the correlation alone. */
  lemma {:induction false} SpearmanInvariant(f: real -> real, g: real -> real, xs: seq<real>, ys: seq<real>)
    requires Increasing(f) && Increasing(g)
    ensures SpearmanOf(Mapped(f, xs), Mapped(g, ys)) == SpearmanOf(xs, ys)
  {
    RanksInvariant(f, xs);
    RanksInvariant(g, ys);
  }
}
