/**
 Round-robin selection of examples: candidates are sorted by their selection key, queued by
 length bin, and taken from the queues in turn until enough are selected.
 */
module BalancedSelection {
  import opened Text
  import opened Counting

  /** A range of prompt lengths; its label spells out both bounds and so identifies it. */
  datatype LengthBin = LengthBin(lower: nat, upper: nat)

  /** A prepared example; the key is the value of its fixed-length digest. */
  datatype Candidate = Candidate(key: nat, bin: LengthBin, id: nat)

  // ---- stable sorting by key ----

  predicate Ascending(s: seq<Candidate>) {
    forall i, j | 0 <= i < j < |s| :: s[i].key <= s[j].key
  }

  /** The place after the last of the first `k` candidates whose key is not larger. */
  function Place(s: seq<Candidate>, k: nat, key: nat): (p: nat)
    requires k <= |s|
    ensures p <= k && (p > 0 ==> s[p - 1].key <= key) && forall i | p <= i < k :: s[i].key > key
  {
    if k == 0 || s[k - 1].key <= key then k else Place(s, k - 1, key)
  }

  function Insert(s: seq<Candidate>, c: Candidate): seq<Candidate> {
    var p := Place(s, |s|, c.key);
    s[..p] + [c] + s[p..]
  }

  function SortIn(cs: seq<Candidate>, k: nat): seq<Candidate>
    requires k <= |cs|
  {
    if k == 0 then [] else Insert(SortIn(cs, k - 1), cs[k - 1])
  }

  /** `sorted(cs, key=...)`, which keeps the order of equal keys. */
  function Sorted(cs: seq<Candidate>): seq<Candidate> {
    SortIn(cs, |cs|)
  }

  lemma {:induction false} InsertAscending(s: seq<Candidate>, c: Candidate)
    requires Ascending(s)
    ensures Ascending(Insert(s, c)) && |Insert(s, c)| == |s| + 1
  {
    var p := Place(s, |s|, c.key);
    assert forall i | 0 <= i < p :: s[i].key <= c.key;
  }

  lemma {:induction false} InsertTimes(s: seq<Candidate>, c: Candidate, x: Candidate)
    ensures Times(Insert(s, c), x) == Times(s, x) + if x == c then 1 else 0
  {
    var p := Place(s, |s|, c.key);
    TimesAppend(s[..p] + [c], s[p..], x);
    TimesAppend(s[..p], [c], x);
    TimesAppend(s[..p], s[p..], x);
    TimesOne(c, x);
    assert s[..p] + s[p..] == s;
  }

  lemma {:induction false} SortAscending(cs: seq<Candidate>, k: nat)
    requires k <= |cs|
    ensures Ascending(SortIn(cs, k)) && |SortIn(cs, k)| == k
    decreases k
  {
    if k > 0 {
      SortAscending(cs, k - 1);
      InsertAscending(SortIn(cs, k - 1), cs[k - 1]);
    }
  }

  lemma {:induction false} SortTimes(cs: seq<Candidate>, k: nat, x: Candidate)
    requires k <= |cs|
    ensures Times(SortIn(cs, k), x) == TimesIn(cs, k, x)
    decreases k
  {
    if k > 0 {
      SortTimes(cs, k - 1, x);
      InsertTimes(SortIn(cs, k - 1), cs[k - 1], x);
    }
  }

  /** Sorting orders the candidates by key and loses none. */
  lemma {:induction false} SortedCorrect(cs: seq<Candidate>)
    ensures Ascending(Sorted(cs)) && |Sorted(cs)| == |cs|
    ensures forall x: Candidate :: Times(Sorted(cs), x) == Times(cs, x)
  {
    SortAscending(cs, |cs|);
    forall x: Candidate
      ensures Times(Sorted(cs), x) == Times(cs, x)
    {
      SortTimes(cs, |cs|, x);
    }
  }

  // ---- one arrangement only ----

  predicate DistinctKeys(cs: seq<Candidate>, k: nat)
    requires k <= |cs|
  {
    forall i, j | 0 <= i < j < k :: cs[i].key != cs[j].key
  }

  predicate Strict(s: seq<Candidate>) {
    forall i, j | 0 <= i < j < |s| :: s[i].key < s[j].key
  }

  lemma {:induction false} SortedFrom(cs: seq<Candidate>, k: nat, i: nat)
    requires k <= |cs| && i < |SortIn(cs, k)|
    ensures exists j :: 0 <= j < k && cs[j] == SortIn(cs, k)[i]
  {
    var x := SortIn(cs, k)[i];
    SortTimes(cs, k, x);
    TimesIff(SortIn(cs, k), |SortIn(cs, k)|, x);
    TimesIff(cs, k, x);
  }

  lemma {:induction false} InsertStrict(s: seq<Candidate>, c: Candidate)
    requires Strict(s) && forall i | 0 <= i < |s| :: s[i].key != c.key
    ensures Strict(Insert(s, c))
  {
    var p := Place(s, |s|, c.key);
    assert forall i | 0 <= i < p :: s[i].key < c.key;
  }

  lemma {:induction false} SortStrict(cs: seq<Candidate>, k: nat)
    requires k <= |cs| && DistinctKeys(cs, k)
    ensures Strict(SortIn(cs, k))
    decreases k
  {
    if k > 0 {
      SortStrict(cs, k - 1);
      var s := SortIn(cs, k - 1);
      forall i | 0 <= i < |s|
        ensures s[i].key != cs[k - 1].key
      {
        SortedFrom(cs, k - 1, i);
      }
      InsertStrict(s, cs[k - 1]);
    }
  }

  /** Every element of `s` occurs in `t`. */
  predicate Within(s: seq<Candidate>, t: seq<Candidate>) {
    forall i {:trigger Has(t, s, i)} | 0 <= i < |s| :: Has(t, s, i)
  }

  predicate Has(t: seq<Candidate>, s: seq<Candidate>, i: nat)
    requires i < |s|
  {
    s[i] in t
  }

  predicate SameUpTo(s: seq<Candidate>, t: seq<Candidate>, i: nat) {
    i <= |s| && i <= |t| && forall j | 0 <= j < i :: s[j] == t[j]
  }

  lemma {:induction false} NotBefore(s: seq<Candidate>, t: seq<Candidate>, i: nat)
    requires Strict(s) && Strict(t) && i < |s| && s[i] in t && SameUpTo(s, t, i)
    ensures i < |t| && t[i].key <= s[i].key && (t[i].key == s[i].key ==> t[i] == s[i])
  {
    var j :| 0 <= j < |t| && t[j] == s[i];
    assert j >= i;
  }

  lemma {:induction false} SameNext(s: seq<Candidate>, t: seq<Candidate>, i: nat)
    requires Strict(s) && Strict(t) && i < |s| && s[i] in t && (i < |t| ==> t[i] in s) && SameUpTo(s, t, i)
    ensures SameUpTo(s, t, i + 1)
  {
    NotBefore(s, t, i);
    NotBefore(t, s, i);
  }

  lemma {:induction false} AllSame(s: seq<Candidate>, t: seq<Candidate>, i: nat)
    requires Strict(s) && Strict(t) && Within(s, t) && Within(t, s) && i <= |s|
    ensures SameUpTo(s, t, i)
    decreases i
  {
    if i > 0 {
      AllSame(s, t, i - 1);
      assert Has(t, s, i - 1);
      assert i - 1 < |t| ==> Has(s, t, i - 1);
      SameNext(s, t, i - 1);
    }
  }

  lemma {:induction false} ArrangementUnique(s: seq<Candidate>, t: seq<Candidate>)
    requires Strict(s) && Strict(t) && Within(s, t) && Within(t, s)
    ensures s == t
  {
    AllSame(s, t, |s|);
    AllSame(t, s, |t|);
  }

  lemma {:induction false} TimesWithin(s: seq<Candidate>, t: seq<Candidate>)
    requires forall x: Candidate :: Times(s, x) == Times(t, x)
    ensures Within(s, t)
  {
    forall i | 0 <= i < |s|
      ensures Has(t, s, i)
    {
      TimesIff(s, |s|, s[i]);
      TimesIff(t, |t|, s[i]);
      assert Times(s, s[i]) == Times(t, s[i]);
    }
  }

  /** With distinct keys, sorting forgets the order of its input. */
  lemma {:induction false} SortedForgets(cs: seq<Candidate>, ds: seq<Candidate>)
    requires forall x: Candidate :: Times(cs, x) == Times(ds, x)
    requires DistinctKeys(cs, |cs|) && DistinctKeys(ds, |ds|)
    ensures Sorted(cs) == Sorted(ds)
  {
    SortStrict(cs, |cs|);
    SortStrict(ds, |ds|);
    SortedCorrect(cs);
    SortedCorrect(ds);
    TimesWithin(Sorted(cs), Sorted(ds));
    TimesWithin(Sorted(ds), Sorted(cs));
    ArrangementUnique(Sorted(cs), Sorted(ds));
  }

  // ---- queues by bin ----

  function Pick(c: Candidate, bin: LengthBin): seq<Candidate> {
    if c.bin == bin then [c] else []
  }

  /** The candidates of one bin among the first `k`, in order. */
  function OfBin(s: seq<Candidate>, k: nat, bin: LengthBin): seq<Candidate>
    requires k <= |s|
  {
    if k == 0 then [] else OfBin(s, k - 1, bin) + Pick(s[k - 1], bin)
  }

  /** The bins in the order in which they first occur. */
  function BinOrder(s: seq<Candidate>, k: nat): seq<LengthBin>
    requires k <= |s|
  {
    if k == 0 then [] else
      WithBin(BinOrder(s, k - 1), s[k - 1].bin)
  }

  function WithBin(order: seq<LengthBin>, bin: LengthBin): seq<LengthBin> {
    if bin in order then order else order + [bin]
  }

  predicate DistinctLabels(order: seq<LengthBin>) {
    forall i, j | 0 <= i < j < |order| :: order[i] != order[j]
  }

  lemma {:induction false} BinOrderDistinct(s: seq<Candidate>, k: nat)
    requires k <= |s|
    ensures DistinctLabels(BinOrder(s, k)) && forall i | 0 <= i < k :: s[i].bin in BinOrder(s, k)
    decreases k
  {
    if k > 0 {
      BinOrderDistinct(s, k - 1);
    }
  }

  lemma {:induction false} EmptyBin(s: seq<Candidate>, k: nat, bin: LengthBin)
    requires k <= |s| && bin !in BinOrder(s, k)
    ensures OfBin(s, k, bin) == []
    decreases k
  {
    if k > 0 {
      EmptyBin(s, k - 1, bin);
    }
  }

  /** How many candidates the first `j` bins of an order hold. */
  function Held(s: seq<Candidate>, k: nat, order: seq<LengthBin>, j: nat): nat
    requires k <= |s| && j <= |order|
  {
    if j == 0 then 0 else Held(s, k, order, j - 1) + |OfBin(s, k, order[j - 1])|
  }

  lemma {:induction false} HeldPrefix(s: seq<Candidate>, k: nat, order: seq<LengthBin>, more: seq<LengthBin>, j: nat)
    requires k <= |s| && j <= |order|
    ensures Held(s, k, order + more, j) == Held(s, k, order, j)
    decreases j
  {
    if j > 0 {
      HeldPrefix(s, k, order, more, j - 1);
    }
  }

  predicate InFirst(order: seq<LengthBin>, j: nat, bin: LengthBin)
    requires j <= |order|
  {
    j > 0 && (order[j - 1] == bin || InFirst(order, j - 1, bin))
  }

  lemma {:induction false} InFirstIff(order: seq<LengthBin>, j: nat, bin: LengthBin)
    requires j <= |order|
    ensures InFirst(order, j, bin) <==> exists b :: 0 <= b < j && order[b] == bin
    decreases j
  {
    if j > 0 {
      InFirstIff(order, j - 1, bin);
    }
  }

  lemma {:induction false} HeldNext(s: seq<Candidate>, k: nat, order: seq<LengthBin>, j: nat)
    requires k < |s| && j <= |order| && DistinctLabels(order)
    ensures Held(s, k + 1, order, j) == Held(s, k, order, j) + if InFirst(order, j, s[k].bin) then 1 else 0
    decreases j
  {
    if j > 0 {
      HeldNext(s, k, order, j - 1);
      if order[j - 1] == s[k].bin {
        InFirstIff(order, j - 1, s[k].bin);
      }
    }
  }

  /** The bins of `order` hold the first `k` candidates. */
  predicate Holds(s: seq<Candidate>, k: nat, order: seq<LengthBin>)
    requires k <= |s|
  {
    Held(s, k, order, |order|) == k
  }

  lemma {:induction false} HeldOld(s: seq<Candidate>, k: nat, order: seq<LengthBin>)
    requires k < |s| && DistinctLabels(order) && s[k].bin in order && Holds(s, k, order)
    ensures Holds(s, k + 1, order)
  {
    HeldNext(s, k, order, |order|);
    InFirstIff(order, |order|, s[k].bin);
  }

  lemma {:induction false} HeldNew(s: seq<Candidate>, k: nat, order: seq<LengthBin>)
    requires k < |s| && DistinctLabels(order) && s[k].bin !in order && OfBin(s, k, s[k].bin) == [] && Holds(s, k, order)
    ensures Holds(s, k + 1, order + [s[k].bin])
  {
    HeldNext(s, k, order, |order|);
    InFirstIff(order, |order|, s[k].bin);
    HeldPrefix(s, k + 1, order, [s[k].bin], |order|);
  }

  /** The bins together hold every candidate. */
  lemma {:induction false} HeldAll(s: seq<Candidate>, k: nat)
    requires k <= |s|
    ensures Holds(s, k, BinOrder(s, k))
    decreases k
  {
    if k == 0 {
      HeldNone(s);
    } else {
      HeldAll(s, k - 1);
      HeldOneMore(s, k);
    }
  }

  lemma {:induction false} HeldNone(s: seq<Candidate>)
    ensures Holds(s, 0, BinOrder(s, 0))
  {
  }

  lemma {:induction false} HeldOneMore(s: seq<Candidate>, k: nat)
    requires 0 < k <= |s| && Holds(s, k - 1, BinOrder(s, k - 1))
    ensures Holds(s, k, BinOrder(s, k))
  {
    var order, bin := BinOrder(s, k - 1), s[k - 1].bin;
    BinOrderDistinct(s, k - 1);
    if bin in order {
      HeldOld(s, k - 1, order);
    } else {
      EmptyBin(s, k - 1, bin);
      HeldNew(s, k - 1, order);
    }
  }

  // ---- the rounds ----

  /** What has been selected after `r` full rounds and the first `j` bins of the next one. */
  function Flat(q: seq<seq<Candidate>>, r: nat, j: nat): seq<Candidate>
    requires j <= |q|
    decreases r, j
  {
    if j > 0 then Flat(q, r, j - 1) + Turn(q[j - 1], r)
    else if r > 0 then Flat(q, r - 1, |q|)
    else []
  }

  /** What a bin gives in its turn of round `r`. */
  function Turn(queue: seq<Candidate>, r: nat): seq<Candidate> {
    if r < |queue| then [queue[r]] else []
  }

  /** How many candidates bin `b` has given by then. */
  function Taken(q: seq<seq<Candidate>>, r: nat, j: nat, b: nat): nat
    requires j <= |q| && b < |q|
  {
    var turns := if b < j then r + 1 else r;
    if turns < |q[b]| then turns else |q[b]|
  }

  /** A bin that trails another by two or more has nothing left. */
  lemma {:induction false} Trailing(q: seq<seq<Candidate>>, r: nat, j: nat, b: nat, c: nat)
    requires j <= |q| && b < |q| && c < |q| && Taken(q, r, j, b) + 2 <= Taken(q, r, j, c)
    ensures Taken(q, r, j, b) == |q[b]|
  {
  }

  function TakenSum(q: seq<seq<Candidate>>, r: nat, j: nat, b: nat): nat
    requires j <= |q| && b <= |q|
    decreases b
  {
    if b == 0 then 0 else TakenSum(q, r, j, b - 1) + Taken(q, r, j, b - 1)
  }

  lemma {:induction false} TakenSumStep(q: seq<seq<Candidate>>, r: nat, j: nat, b: nat)
    requires 0 < j <= |q| && b <= |q|
    ensures TakenSum(q, r, j, b) == TakenSum(q, r, j - 1, b) + if j <= b then |Turn(q[j - 1], r)| else 0
    decreases b
  {
    if b > 0 {
      TakenSumStep(q, r, j, b - 1);
    }
  }

  lemma {:induction false} TakenSumRound(q: seq<seq<Candidate>>, r: nat, b: nat)
    requires r > 0 && b <= |q|
    ensures TakenSum(q, r, 0, b) == TakenSum(q, r - 1, |q|, b)
    decreases b
  {
    if b > 0 {
      TakenSumRound(q, r, b - 1);
    }
  }

  lemma {:induction false} TakenSumZero(q: seq<seq<Candidate>>, b: nat)
    requires b <= |q|
    ensures TakenSum(q, 0, 0, b) == 0
    decreases b
  {
    if b > 0 {
      TakenSumZero(q, b - 1);
    }
  }

  lemma {:induction false} FlatLength(q: seq<seq<Candidate>>, r: nat, j: nat)
    requires j <= |q|
    ensures |Flat(q, r, j)| == TakenSum(q, r, j, |q|)
    decreases r, j
  {
    if j > 0 {
      FlatLength(q, r, j - 1);
      TakenSumStep(q, r, j, |q|);
    } else if r > 0 {
      FlatLength(q, r - 1, |q|);
      TakenSumRound(q, r, |q|);
    } else {
      TakenSumZero(q, |q|);
    }
  }

  function QueueSum(q: seq<seq<Candidate>>, b: nat): nat
    requires b <= |q|
  {
    if b == 0 then 0 else QueueSum(q, b - 1) + |q[b - 1]|
  }

  /** After as many rounds as the longest queue, everything has been selected. */
  lemma {:induction false} TakenAll(q: seq<seq<Candidate>>, r: nat, j: nat, b: nat)
    requires j <= |q| && b <= |q| && forall i | 0 <= i < |q| :: |q[i]| <= r
    ensures TakenSum(q, r, j, b) == QueueSum(q, b)
    decreases b
  {
    if b > 0 {
      TakenAll(q, r, j, b - 1);
    }
  }

  /** A round without a single turn means that every queue is empty. */
  lemma {:induction false} NoTurn(q: seq<seq<Candidate>>, r: nat, j: nat)
    requires j <= |q| && |Flat(q, r, j)| == |Flat(q, r, 0)|
    ensures forall i | 0 <= i < j :: |q[i]| <= r
    decreases j
  {
    if j > 0 {
      FlatGrows(q, r, j - 1);
      NoTurn(q, r, j - 1);
    }
  }

  lemma {:induction false} FlatGrows(q: seq<seq<Candidate>>, r: nat, j: nat)
    requires j <= |q|
    ensures |Flat(q, r, 0)| <= |Flat(q, r, j)|
    decreases j
  {
    if j > 0 {
      FlatGrows(q, r, j - 1);
    }
  }

  /** So no round is idle while candidates are left. */
  lemma {:induction false} Progress(q: seq<seq<Candidate>>, r: nat)
    requires |Flat(q, r, 0)| < QueueSum(q, |q|)
    ensures |Flat(q, r, 0)| < |Flat(q, r, |q|)|
  {
    FlatGrows(q, r, |q|);
    if |Flat(q, r, 0)| == |Flat(q, r, |q|)| {
      NoTurn(q, r, |q|);
      FlatLength(q, r, 0);
      TakenAll(q, r, 0, |q|);
    }
  }

  // ---- the queues of a sorted list ----

  function Queues(s: seq<Candidate>, order: seq<LengthBin>): seq<seq<Candidate>> {
    seq(|order|, j requires 0 <= j < |order| => OfBin(s, |s|, order[j]))
  }

  function QueuesOf(s: seq<Candidate>): seq<seq<Candidate>> {
    Queues(s, BinOrder(s, |s|))
  }

  lemma {:induction false} QueueSumHeld(s: seq<Candidate>, order: seq<LengthBin>, j: nat)
    requires j <= |order|
    ensures QueueSum(Queues(s, order), j) == Held(s, |s|, order, j)
    decreases j
  {
    if j > 0 {
      QueueSumHeld(s, order, j - 1);
    }
  }

  lemma {:induction false} QueuesHoldAll(s: seq<Candidate>)
    ensures QueueSum(QueuesOf(s), |QueuesOf(s)|) == |s|
  {
    var order := BinOrder(s, |s|);
    QueueSumHeld(s, order, |order|);
    HeldAll(s, |s|);
  }

  lemma {:induction false} OfBinLabels(s: seq<Candidate>, k: nat, bin: LengthBin, i: nat)
    requires k <= |s| && i < |OfBin(s, k, bin)|
    ensures OfBin(s, k, bin)[i].bin == bin
    decreases k
  {
    if k > 0 && i < |OfBin(s, k - 1, bin)| {
      OfBinLabels(s, k - 1, bin, i);
    }
  }

  lemma {:induction false} OfBinPrefix(s: seq<Candidate>, t: seq<Candidate>, k: nat, bin: LengthBin)
    requires k <= |s|
    ensures OfBin(s + t, k, bin) == OfBin(s, k, bin)
    decreases k
  {
    if k > 0 {
      OfBinPrefix(s, t, k - 1, bin);
    }
  }

  lemma {:induction false} OfBinAppend(s: seq<Candidate>, t: seq<Candidate>, bin: LengthBin)
    requires |t| <= 1
    ensures OfBin(s + t, |s + t|, bin) == OfBin(s, |s|, bin) + if t != [] && t[0].bin == bin then t else []
  {
    OfBinPrefix(s, t, |s|, bin);
  }

  /** Each queue holds candidates of its own bin, and no bin has two queues. */
  predicate Binned(q: seq<seq<Candidate>>, order: seq<LengthBin>) {
    && |q| == |order| && DistinctLabels(order)
    && forall b: nat, i: nat | b < |q| && i < |q[b]| :: q[b][i].bin == order[b]
  }

  lemma {:induction false} QueuesBinned(s: seq<Candidate>)
    ensures Binned(QueuesOf(s), BinOrder(s, |s|))
  {
    var q: seq<seq<Candidate>>, order := QueuesOf(s), BinOrder(s, |s|);
    BinOrderDistinct(s, |s|);
    forall b: nat, i: nat | b < |q| && i < |q[b]|
      ensures q[b][i].bin == order[b]
    {
      OfBinLabels(s, |s|, order[b], i);
    }
  }

  lemma {:induction false} TakeNext(queue: seq<Candidate>, r: nat)
    requires r < |queue|
    ensures queue[..r + 1] == queue[..r] + [queue[r]]
  {
  }

  /** One turn adds to the bin whose turn it is, and to no other. */
  lemma {:induction false} TurnOfBin(q: seq<seq<Candidate>>, order: seq<LengthBin>, sel: seq<Candidate>, r: nat, j: nat, b: nat)
    requires Binned(q, order) && j < |q| && b < |q|
    requires OfBin(sel, |sel|, order[b]) == q[b][..Taken(q, r, j, b)]
    ensures var sel' := sel + Turn(q[j], r); OfBin(sel', |sel'|, order[b]) == q[b][..Taken(q, r, j + 1, b)]
  {
    OfBinAppend(sel, Turn(q[j], r), order[b]);
    if r < |q[j]| {
      assert q[j][r].bin == order[j];
      TakeNext(q[j], r);
    }
  }

  /** What comes from a bin is the front of its queue. */
  lemma {:induction false} FromBin(q: seq<seq<Candidate>>, order: seq<LengthBin>, r: nat, j: nat, b: nat)
    requires Binned(q, order) && j <= |q| && b < |q|
    ensures var sel := Flat(q, r, j); OfBin(sel, |sel|, order[b]) == q[b][..Taken(q, r, j, b)]
    decreases r, j
  {
    if j > 0 {
      FromBin(q, order, r, j - 1, b);
      TurnOfBin(q, order, Flat(q, r, j - 1), r, j - 1, b);
    } else if r > 0 {
      FromBin(q, order, r - 1, |q|, b);
    }
  }

  // ---- one selection only ----

  predicate Starts(s: seq<Candidate>, t: seq<Candidate>) {
    |t| <= |s| && forall i | 0 <= i < |t| :: s[i] == t[i]
  }

  lemma {:induction false} FlatStarts(q: seq<seq<Candidate>>, r: nat, j: nat, r': nat, j': nat)
    requires j <= |q| && j' <= |q| && (r < r' || (r == r' && j <= j'))
    ensures Starts(Flat(q, r', j'), Flat(q, r, j))
    decreases r', j'
  {
    if r < r' || j < j' {
      if j' > 0 {
        FlatStarts(q, r, j, r', j' - 1);
      } else {
        FlatStarts(q, r, j, r' - 1, |q|);
      }
    }
  }

  lemma {:induction false} FlatUnique(q: seq<seq<Candidate>>, r: nat, j: nat, r': nat, j': nat)
    requires j <= |q| && j' <= |q| && |Flat(q, r, j)| == |Flat(q, r', j')|
    ensures Flat(q, r, j) == Flat(q, r', j')
  {
    if r < r' || (r == r' && j <= j') {
      FlatStarts(q, r, j, r', j');
    } else {
      FlatStarts(q, r', j', r, j);
    }
  }

  /** `sel` is what the rounds over the sorted list `s` have given when `n` are selected. */
  ghost predicate Selects(s: seq<Candidate>, n: int, sel: seq<Candidate>) {
    exists r: nat, j: nat :: SelectsAt(s, n, sel, r, j)
  }

  predicate SelectsAt(s: seq<Candidate>, n: int, sel: seq<Candidate>, r: nat, j: nat) {
    j <= |QueuesOf(s)| && sel == Flat(QueuesOf(s), r, j) && |sel| == if n > 0 then n else 0
  }

  // ---- the algorithm ----

  /** The queues of all bins, and the bins in order of first occurrence. */
  method Group(s: seq<Candidate>) returns (queues: map<LengthBin, seq<Candidate>>, order: seq<LengthBin>)
    ensures order == BinOrder(s, |s|)
    ensures forall bin | bin in order :: bin in queues && queues[bin] == OfBin(s, |s|, bin)
  {
    queues, order := map[], [];
    for k := 0 to |s|
      invariant order == BinOrder(s, k)
      invariant forall bin :: bin in queues <==> bin in order
      invariant forall bin | bin in order :: queues[bin] == OfBin(s, k, bin)
    {
      var bin := s[k].bin;
      if bin !in queues {
        EmptyBin(s, k, bin);
        queues := queues[bin := []];
        order := order + [bin];
      }
      queues := queues[bin := queues[bin] + [s[k]]];
    }
  }

  /** What each queue still holds. */
  ghost predicate Remaining(queues: map<LengthBin, seq<Candidate>>, order: seq<LengthBin>, q: seq<seq<Candidate>>, r: nat, j: nat)
    requires |q| == |order| && j <= |q|
  {
    forall b | 0 <= b < |order| :: order[b] in queues && queues[order[b]] == q[b][Taken(q, r, j, b)..]
  }

  lemma {:induction false} PopFront(queue: seq<Candidate>, t: nat)
    requires t < |queue|
    ensures queue[t..][0] == queue[t] && queue[t..][1..] == queue[t + 1..]
  {
  }

  /** Popping the front of a queue is the turn of its bin. */
  lemma {:induction false} Popped(queues: map<LengthBin, seq<Candidate>>, order: seq<LengthBin>, q: seq<seq<Candidate>>, r: nat, j: nat)
    requires |q| == |order| && j < |q| && DistinctLabels(order) && Remaining(queues, order, q, r, j) && r < |q[j]|
    ensures queues[order[j]] != [] && [queues[order[j]][0]] == Turn(q[j], r)
    ensures Remaining(queues[order[j] := queues[order[j]][1..]], order, q, r, j + 1)
  {
    PopFront(q[j], r);
  }

  lemma {:induction false} Passed(queues: map<LengthBin, seq<Candidate>>, order: seq<LengthBin>, q: seq<seq<Candidate>>, r: nat, j: nat)
    requires |q| == |order| && j < |q| && Remaining(queues, order, q, r, j) && r >= |q[j]|
    ensures queues[order[j]] == [] && Turn(q[j], r) == []
    ensures Remaining(queues, order, q, r, j + 1)
  {
    assert q[j][|q[j]|..] == [];
  }

  /** One round over the bins, cut short when enough are selected. */
  method Round(queues: map<LengthBin, seq<Candidate>>, order: seq<LengthBin>, sel: seq<Candidate>, n: int,
               ghost q: seq<seq<Candidate>>, ghost r: nat)
    returns (queues': map<LengthBin, seq<Candidate>>, sel': seq<Candidate>, progressed: bool, ghost j: nat)
    requires |q| == |order| && DistinctLabels(order) && |sel| < n
    requires Remaining(queues, order, q, r, 0) && sel == Flat(q, r, 0)
    ensures j <= |q| && sel' == Flat(q, r, j) && |sel'| <= n && (|sel'| < n ==> j == |q|)
    ensures Remaining(queues', order, q, r, j)
    ensures progressed <==> |sel'| > |sel|
  {
    queues', sel', progressed, j := queues, sel, false, 0;
    for i := 0 to |order|
      invariant j == i && sel' == Flat(q, r, j) && |sel| <= |sel'| < n
      invariant Remaining(queues', order, q, r, j)
      invariant progressed <==> |sel'| > |sel|
    {
      var queue := queues'[order[i]];
      if r < |q[i]| {
        Popped(queues', order, q, r, i);
      } else {
        Passed(queues', order, q, r, i);
      }
      if queue != [] {
        sel' := sel' + [queue[0]];
        queues' := queues'[order[i] := queue[1..]];
        progressed := true;
      }
      j := i + 1;
      assert sel' == Flat(q, r, j);
      if |sel'| == n {
        return;
      }
    }
  }

  method SelectBalanced(cs: seq<Candidate>, n: int) returns (result: Option<seq<Candidate>>)
    ensures result.None? <==> |cs| < n
    ensures result.Some? ==> Selects(Sorted(cs), n, result.value)
  {
    if |cs| < n {
      return None;
    }
    var s := Sorted(cs);
    SortedCorrect(cs);
    QueuesHoldAll(s);
    QueuesBinned(s);
    ghost var q := QueuesOf(s);
    var queues, order := Group(s);
    var sel: seq<Candidate> := [];
    ghost var r: nat, j: nat := 0, 0;
    while |sel| < n
      invariant j <= |q| && sel == Flat(q, r, j) && |sel| <= (if n > 0 then n else 0) && (|sel| < n ==> j == 0)
      invariant j == 0 ==> Remaining(queues, order, q, r, 0)
      decreases n - |sel|
    {
      Progress(q, r);
      var progressed;
      ghost var before := |sel|;
      queues, sel, progressed, j := Round(queues, order, sel, n, q, r);
      if !progressed {
        assert false;
      }
      if |sel| < n {
        r, j := r + 1, 0;
        RoundEnds(queues, order, q, r);
      }
    }
    assert SelectsAt(s, n, sel, r, j);
    result := Some(sel);
  }

  lemma {:induction false} RoundEnds(queues: map<LengthBin, seq<Candidate>>, order: seq<LengthBin>, q: seq<seq<Candidate>>, r: nat)
    requires r > 0 && |q| == |order| && Remaining(queues, order, q, r - 1, |q|)
    ensures Remaining(queues, order, q, r, 0)
  {
    assert forall b | 0 <= b < |q| :: Taken(q, r, 0, b) == Taken(q, r - 1, |q|, b);
  }

  // ---- what the selection is ----

  /** The selected candidates of a bin. */
  function FromBinOf(sel: seq<Candidate>, bin: LengthBin): seq<Candidate> {
    OfBin(sel, |sel|, bin)
  }

  lemma {:induction false} AbsentBin(s: seq<Candidate>, sel: seq<Candidate>, r: nat, j: nat, bin: LengthBin)
    requires bin !in BinOrder(s, |s|) && j <= |QueuesOf(s)| && sel == Flat(QueuesOf(s), r, j)
    ensures FromBinOf(sel, bin) == []
    decreases r, j
  {
    var q, order := QueuesOf(s), BinOrder(s, |s|);
    if j > 0 {
      var before := Flat(q, r, j - 1);
      AbsentBin(s, before, r, j - 1, bin);
      OfBinAppend(before, Turn(q[j - 1], r), bin);
      QueuesBinned(s);
      assert order[j - 1] in order;
    } else if r > 0 {
      AbsentBin(s, sel, r - 1, |q|, bin);
    }
  }

  /** From every bin the selection has the candidates with the smallest keys, in order. */
  lemma {:induction false} SmallestKeys(s: seq<Candidate>, n: int, sel: seq<Candidate>, bin: LengthBin)
    requires Selects(s, n, sel)
    ensures |FromBinOf(sel, bin)| <= |FromBinOf(s, bin)|
    ensures FromBinOf(sel, bin) == FromBinOf(s, bin)[..|FromBinOf(sel, bin)|]
  {
    var r: nat, j: nat :| SelectsAt(s, n, sel, r, j);
    var order := BinOrder(s, |s|);
    if bin in order {
      var b :| 0 <= b < |order| && order[b] == bin;
      QueuesBinned(s);
      FromBin(QueuesOf(s), order, r, j, b);
    } else {
      AbsentBin(s, sel, r, j, bin);
    }
  }

  /** A bin that trails another by two or more is exhausted. */
  lemma {:induction false} TrailingExhausted(s: seq<Candidate>, n: int, sel: seq<Candidate>, bin: LengthBin, bin': LengthBin)
    requires Selects(s, n, sel) && |FromBinOf(sel, bin)| + 2 <= |FromBinOf(sel, bin')|
    ensures FromBinOf(sel, bin) == FromBinOf(s, bin)
  {
    var r: nat, j: nat :| SelectsAt(s, n, sel, r, j);
    var q, order := QueuesOf(s), BinOrder(s, |s|);
    QueuesBinned(s);
    if bin' !in order {
      AbsentBin(s, sel, r, j, bin');
    } else {
      var c :| 0 <= c < |order| && order[c] == bin';
      FromBin(q, order, r, j, c);
      if bin in order {
        var b :| 0 <= b < |order| && order[b] == bin;
        FromBin(q, order, r, j, b);
        Trailing(q, r, j, b, c);
        assert q[b][..|q[b]|] == q[b];
      } else {
        AbsentBin(s, sel, r, j, bin);
        EmptyBin(s, |s|, bin);
      }
    }
  }

  lemma {:induction false} TimesOfBin(s: seq<Candidate>, k: nat, x: Candidate)
    requires k <= |s|
    ensures Times(OfBin(s, k, x.bin), x) == TimesIn(s, k, x)
    decreases k
  {
    if k > 0 {
      TimesOfBin(s, k - 1, x);
      TimesAppend(OfBin(s, k - 1, x.bin), Pick(s[k - 1], x.bin), x);
      TimesOne(s[k - 1], x);
    }
  }

  lemma {:induction false} TimesPart(t: seq<Candidate>, m: nat, x: Candidate)
    requires m <= |t|
    ensures Times(t[..m], x) <= Times(t, x)
  {
    assert t == t[..m] + t[m..];
    TimesAppend(t[..m], t[m..], x);
  }

  /** No candidate is selected more often than it was offered. */
  lemma {:induction false} NoRepeats(cs: seq<Candidate>, n: int, sel: seq<Candidate>, x: Candidate)
    requires Selects(Sorted(cs), n, sel)
    ensures Times(sel, x) <= Times(cs, x)
  {
    var s := Sorted(cs);
    SmallestKeys(s, n, sel, x.bin);
    TimesOfBin(sel, |sel|, x);
    TimesOfBin(s, |s|, x);
    TimesPart(FromBinOf(s, x.bin), |FromBinOf(sel, x.bin)|, x);
    SortTimes(cs, |cs|, x);
  }

  /** With distinct keys the selection does not depend on the order of the candidates. */
  lemma {:induction false} OrderForgotten(cs: seq<Candidate>, ds: seq<Candidate>, n: int, sel: seq<Candidate>, sel': seq<Candidate>)
    requires forall x: Candidate :: Times(cs, x) == Times(ds, x)
    requires DistinctKeys(cs, |cs|) && DistinctKeys(ds, |ds|)
    requires Selects(Sorted(cs), n, sel) && Selects(Sorted(ds), n, sel')
    ensures sel == sel'
  {
    SortedForgets(cs, ds);
    var s := Sorted(cs);
    var r: nat, j: nat :| SelectsAt(s, n, sel, r, j);
    var r': nat, j': nat :| SelectsAt(s, n, sel', r', j');
    FlatUnique(QueuesOf(s), r, j, r', j');
  }
}
