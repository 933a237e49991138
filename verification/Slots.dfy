/**
 Slot mappings: compression of a list of slot indices into ranges, its inverse, and the parser
 of the comma and bracket notation.
 */
module Slots {
  datatype Item = One(slot: int) | Span(start: int, end: int)

  /** `range(a, b + 1)`. */
  function Range(a: int, b: int): seq<int>
    decreases b - a + 1
  {
    if a > b then [] else Range(a, b - 1) + [b]
  }

  lemma {:induction false} RangeAt(a: int, b: int)
    ensures |Range(a, b)| == (if a > b then 0 else b - a + 1) && forall i | 0 <= i < |Range(a, b)| :: Range(a, b)[i] == a + i
    decreases b - a + 1
  {
    if a <= b {
      RangeAt(a, b - 1);
    }
  }

  function Values(item: Item): seq<int> {
    match item
    case One(n) => [n]
    case Span(a, b) => Range(a, b)
  }

  /** The slots that the first `k` items stand for. */
  function ExpandIn(items: seq<Item>, k: nat): seq<int>
    requires k <= |items|
  {
    if k == 0 then [] else ExpandIn(items, k - 1) + Values(items[k - 1])
  }

  function Expand(items: seq<Item>): seq<int> {
    ExpandIn(items, |items|)
  }

  method Decompress(items: seq<Item>) returns (slots: seq<int>)
    ensures slots == Expand(items)
  {
    slots := [];
    for k := 0 to |items|
      invariant slots == ExpandIn(items, k)
    {
      match items[k]
      case One(n) => slots := slots + [n];
      case Span(a, b) => slots := slots + Range(a, b);
    }
  }

  lemma {:induction false} ExpandPrefix(items: seq<Item>, more: seq<Item>, k: nat)
    requires k <= |items|
    ensures ExpandIn(items + more, k) == ExpandIn(items, k)
    decreases k
  {
    if k > 0 {
      ExpandPrefix(items, more, k - 1);
    }
  }

  lemma {:induction false} ExpandAppend(items: seq<Item>, item: Item)
    ensures Expand(items + [item]) == Expand(items) + Values(item)
  {
    ExpandPrefix(items, [item], |items|);
  }

  // ---- compression ----

  /** The items for the slots from `a` to `b`, one by one. */
  function Singles(a: int, b: int): seq<Item>
    decreases b - a + 1
  {
    if a > b then [] else Singles(a, b - 1) + [One(b)]
  }

  /** A run of consecutive slots: a range when there are three or more. */
  function Emit(a: int, b: int): seq<Item> {
    if b - a + 1 >= 3 then [Span(a, b)] else Singles(a, b)
  }

  /** The items of the runs already closed, and the bounds of the open one. */
  datatype Scan = Scan(closed: seq<Item>, start: int, end: int)

  function ScanStep(c: Scan, slot: int): Scan {
    if slot == c.end + 1 then c.(end := slot) else Scan(c.closed + Emit(c.start, c.end), slot, slot)
  }

  function ScanOf(s: seq<int>, k: nat): Scan
    requires 1 <= k <= |s|
  {
    if k == 1 then Scan([], s[0], s[0]) else ScanStep(ScanOf(s, k - 1), s[k - 1])
  }

  function Compressed(s: seq<int>): seq<Item> {
    if s == [] then [] else
      var c := ScanOf(s, |s|);
      c.closed + Emit(c.start, c.end)
  }

  method AppendRun(items: seq<Item>, a: int, b: int) returns (items': seq<Item>)
    ensures items' == items + Emit(a, b)
  {
    items' := items;
    if b - a + 1 >= 3 {
      items' := items' + [Span(a, b)];
    } else {
      var i := a;
      while i <= b
        invariant a <= i && (i <= b + 1 || i == a)
        invariant items' == items + Singles(a, i - 1)
        decreases b - i + 1
      {
        items' := items' + [One(i)];
        i := i + 1;
      }
      assert a > b ==> Singles(a, b) == Singles(a, a - 1);
    }
  }

  method Compress(slots: seq<int>) returns (items: seq<Item>)
    ensures items == Compressed(slots)
  {
    items := [];
    if slots == [] {
      return;
    }
    var start, end := slots[0], slots[0];
    for k := 1 to |slots|
      invariant Scan(items, start, end) == ScanOf(slots, k)
    {
      if slots[k] == end + 1 {
        end := slots[k];
      } else {
        items := AppendRun(items, start, end);
        start, end := slots[k], slots[k];
      }
    }
    items := AppendRun(items, start, end);
  }

  lemma {:induction false} ExpandSingles(items: seq<Item>, a: int, b: int)
    ensures Expand(items + Singles(a, b)) == Expand(items) + Range(a, b)
    decreases b - a + 1
  {
    if a > b {
      assert items + Singles(a, b) == items;
    } else {
      ExpandSingles(items, a, b - 1);
      ExpandAppend(items + Singles(a, b - 1), One(b));
      assert items + Singles(a, b) == items + Singles(a, b - 1) + [One(b)];
    }
  }

  lemma {:induction false} ExpandEmit(items: seq<Item>, a: int, b: int)
    ensures Expand(items + Emit(a, b)) == Expand(items) + Range(a, b)
  {
    if b - a + 1 >= 3 {
      ExpandAppend(items, Span(a, b));
    } else {
      ExpandSingles(items, a, b);
    }
  }

  /** The closed runs and the open one stand for `t`. */
  predicate Covers(c: Scan, t: seq<int>) {
    c.start <= c.end && Expand(c.closed) + Range(c.start, c.end) == t
  }

  lemma {:induction false} CoversStep(c: Scan, slot: int, t: seq<int>)
    requires Covers(c, t)
    ensures Covers(ScanStep(c, slot), t + [slot])
  {
    if slot != c.end + 1 {
      ExpandEmit(c.closed, c.start, c.end);
      assert Range(slot, slot) == [slot];
    }
  }

  lemma {:induction false} CoversFirst(slot: int)
    ensures Covers(Scan([], slot, slot), [slot])
  {
    assert Range(slot, slot) == [slot];
  }

  /** The first `k` slots. */
  function FirstOf(s: seq<int>, k: nat): seq<int>
    requires k <= |s|
  {
    if k == 0 then [] else FirstOf(s, k - 1) + [s[k - 1]]
  }

  lemma {:induction false} FirstOfIsTake(s: seq<int>, k: nat)
    requires k <= |s|
    ensures FirstOf(s, k) == s[..k]
  {
    if k > 0 {
      FirstOfIsTake(s, k - 1);
    }
  }

  lemma {:induction false} ScanExpands(s: seq<int>, k: nat)
    requires 1 <= k <= |s|
    ensures Covers(ScanOf(s, k), FirstOf(s, k))
  {
    if k > 1 {
      ScanExpands(s, k - 1);
      CoversStep(ScanOf(s, k - 1), s[k - 1], FirstOf(s, k - 1));
    } else {
      CoversFirst(s[0]);
      assert FirstOf(s, 0) == [];
    }
  }

  /** Decompressing a compressed mapping gives the mapping back. */
  lemma {:induction false} RoundTrip(s: seq<int>)
    ensures Expand(Compressed(s)) == s
  {
    if s != [] {
      var c := ScanOf(s, |s|);
      ScanExpands(s, |s|);
      ExpandEmit(c.closed, c.start, c.end);
      FirstOfIsTake(s, |s|);
      assert s[..|s|] == s;
    }
  }

  // ---- no shorter representation ----

  /** Ranges of three slots or more only. */
  predicate LongSpans(items: seq<Item>) {
    forall i | 0 <= i < |items| :: items[i].Span? ==> items[i].end - items[i].start >= 2
  }

  function RunCost(n: int): int {
    if n >= 3 then 1 else n
  }

  /** How many items the first `k` slots take. */
  function Cost(s: seq<int>, k: nat): int
    requires k <= |s|
  {
    if k == 0 then 0
    else
      var c := ScanOf(s, k);
      |c.closed| + RunCost(c.end - c.start + 1)
  }

  lemma {:induction false} EmitCost(a: int, b: int)
    requires a <= b
    ensures |Emit(a, b)| == RunCost(b - a + 1) && LongSpans(Emit(a, b))
  {
    if b - a + 1 < 3 {
      assert Singles(a, a - 1) == [] && |Singles(a, a)| == 1;
      assert b == a || (b == a + 1 && Singles(a, b) == Singles(a, a) + [One(b)]);
    }
  }

  lemma {:induction false} ScanLongSpans(s: seq<int>, k: nat)
    requires 1 <= k <= |s|
    ensures LongSpans(ScanOf(s, k).closed)
  {
    if k > 1 {
      ScanLongSpans(s, k - 1);
      ScanExpands(s, k - 1);
      var c := ScanOf(s, k - 1);
      EmitCost(c.start, c.end);
    }
  }

  lemma {:induction false} CompressedCost(s: seq<int>)
    ensures |Compressed(s)| == Cost(s, |s|) && LongSpans(Compressed(s))
  {
    if s != [] {
      var c := ScanOf(s, |s|);
      ScanExpands(s, |s|);
      ScanLongSpans(s, |s|);
      EmitCost(c.start, c.end);
    }
  }

  /** One more slot costs at most one more item. */
  lemma {:induction false} CostOne(s: seq<int>, k: nat)
    requires k < |s|
    ensures Cost(s, k + 1) <= Cost(s, k) + 1
  {
    if k > 0 {
      ScanExpands(s, k);
      var c := ScanOf(s, k);
      EmitCost(c.start, c.end);
    }
  }

  /** The next `m` slots are consecutive. */
  predicate Consecutive(s: seq<int>, k: nat, m: nat) {
    k + m <= |s| && forall j | k <= j < k + m :: s[j] == s[k] + (j - k)
  }

  /** Consecutive slots extend one run. */
  lemma {:induction false} ScanRun(s: seq<int>, k: nat, m: nat)
    requires m >= 1 && Consecutive(s, k, m)
    ensures var c := ScanOf(s, k + m);
            if k > 0 && s[k] == ScanOf(s, k).end + 1
            then c == ScanOf(s, k).(end := s[k] + m - 1)
            else c.start == s[k] && c.end == s[k] + m - 1
                 && c.closed == if k == 0 then [] else ScanOf(s, k).closed + Emit(ScanOf(s, k).start, ScanOf(s, k).end)
    decreases m
  {
    assert s[k + m - 1] == s[k] + (m - 1);
    if m > 1 {
      ScanRun(s, k, m - 1);
    }
  }

  /** A whole range costs at most one more item. */
  lemma {:induction false} CostSpan(s: seq<int>, k: nat, m: nat)
    requires m >= 3 && Consecutive(s, k, m)
    ensures Cost(s, k + m) <= Cost(s, k) + 1
  {
    ScanRun(s, k, m);
    if k > 0 {
      ScanExpands(s, k);
      var c := ScanOf(s, k);
      EmitCost(c.start, c.end);
    }
  }

  predicate Starts(s: seq<int>, t: seq<int>) {
    |t| <= |s| && forall i | 0 <= i < |t| :: s[i] == t[i]
  }

  lemma {:induction false} StartsTrans(s: seq<int>, t: seq<int>, u: seq<int>)
    requires Starts(s, t + u)
    ensures Starts(s, t)
  {
    forall i | 0 <= i < |t|
      ensures s[i] == t[i]
    {
      assert s[i] == (t + u)[i];
    }
  }

  lemma {:induction false} ExpandStarts(items: seq<Item>, j: nat)
    requires j <= |items|
    ensures Starts(Expand(items), ExpandIn(items, j))
    decreases |items| - j
  {
    if j < |items| {
      ExpandStarts(items, j + 1);
      StartsTrans(Expand(items), ExpandIn(items, j), Values(items[j]));
    }
  }

  lemma {:induction false} SpanConsecutive(s: seq<int>, t: seq<int>, a: int, b: int)
    requires a <= b && Starts(s, t + Range(a, b))
    ensures Consecutive(s, |t|, b - a + 1) && |t + Range(a, b)| == |t| + b - a + 1
  {
    RangeAt(a, b);
  }

  lemma {:induction false} CostStep(s: seq<int>, t: seq<int>, item: Item)
    requires Starts(s, t + Values(item)) && (item.Span? ==> item.end - item.start >= 2)
    ensures Cost(s, |t + Values(item)|) <= Cost(s, |t|) + 1
  {
    match item
    case One(_) =>
      CostOne(s, |t|);
    case Span(a, b) =>
      SpanConsecutive(s, t, a, b);
      CostSpan(s, |t|, b - a + 1);
  }

  /** The slots of the first `j` items cost at most `j`. */
  predicate CostsAtMost(s: seq<int>, t: seq<int>, j: nat) {
    |t| <= |s| && Cost(s, |t|) <= j
  }

  lemma {:induction false} CostsNext(s: seq<int>, t: seq<int>, j: nat, item: Item)
    requires CostsAtMost(s, t, j) && Starts(s, t + Values(item)) && (item.Span? ==> item.end - item.start >= 2)
    ensures CostsAtMost(s, t + Values(item), j + 1)
  {
    CostStep(s, t, item);
  }

  lemma {:induction false} CostBound(items: seq<Item>, j: nat)
    requires j <= |items| && LongSpans(items)
    ensures CostsAtMost(Expand(items), ExpandIn(items, j), j)
    decreases j
  {
    if j > 0 {
      CostBound(items, j - 1);
      ExpandStarts(items, j);
      CostsNext(Expand(items), ExpandIn(items, j - 1), j - 1, items[j - 1]);
    }
  }

  /** No list with ranges of three or more stands for the same slots with fewer items. */
  lemma {:induction false} Fewest(s: seq<int>, items: seq<Item>)
    requires LongSpans(items) && Expand(items) == s
    ensures LongSpans(Compressed(s)) && |Compressed(s)| <= |items|
  {
    CompressedCost(s);
    CostBound(items, |items|);
  }

  // ---- ranges that start below zero ----

  /** Three slots in a row, the first of them negative. */
  predicate NegativeRun(s: seq<int>) {
    exists i :: 0 <= i < |s| - 2 && NegativeAt(s, i)
  }

  predicate NegativeAt(s: seq<int>, i: nat)
    requires i < |s| - 2
  {
    s[i] < 0 && s[i + 1] == s[i] + 1 && s[i + 2] == s[i] + 2
  }

  predicate NegativeSpan(items: seq<Item>) {
    exists j :: 0 <= j < |items| && items[j].Span? && items[j].start < 0
  }

  lemma {:induction false} NegativeSpanAppend(items: seq<Item>, more: seq<Item>)
    requires NegativeSpan(items) || NegativeSpan(more)
    ensures NegativeSpan(items + more)
  {
    if NegativeSpan(items) {
      var j :| 0 <= j < |items| && items[j].Span? && items[j].start < 0;
      assert (items + more)[j] == items[j];
    } else {
      var j :| 0 <= j < |more| && more[j].Span? && more[j].start < 0;
      assert (items + more)[|items| + j] == more[j];
    }
  }

  /** A closed range starts below zero, or the open run does and is long enough. */
  predicate NegativeScan(c: Scan) {
    NegativeSpan(c.closed) || (c.end - c.start >= 2 && c.start < 0)
  }

  lemma {:induction false} NegativeEmit(c: Scan)
    requires NegativeScan(c)
    ensures NegativeSpan(c.closed + Emit(c.start, c.end))
  {
    if !NegativeSpan(c.closed) {
      assert Emit(c.start, c.end)[0] == Span(c.start, c.end);
    }
    NegativeSpanAppend(c.closed, Emit(c.start, c.end));
  }

  lemma {:induction false} ScanEnd(s: seq<int>, k: nat)
    requires 1 <= k <= |s|
    ensures ScanOf(s, k).start <= ScanOf(s, k).end == s[k - 1]
  {
    if k > 1 {
      ScanEnd(s, k - 1);
    }
  }

  lemma {:induction false} NegativeScanned(s: seq<int>, i: nat, k: nat)
    requires i + 3 <= k <= |s| && NegativeAt(s, i)
    ensures NegativeScan(ScanOf(s, k))
    decreases k
  {
    if i + 3 < k {
      NegativeScanned(s, i, k - 1);
      NegativeEmit(ScanOf(s, k - 1));
    } else {
      ScanEnd(s, i + 1);
      assert ScanOf(s, i + 2) == ScanOf(s, i + 1).(end := s[i + 1]);
    }
  }

  /** Compression makes a range that starts below zero exactly from such slots. */
  lemma {:induction false} NegativeIff(s: seq<int>)
    ensures NegativeSpan(Compressed(s)) <==> NegativeRun(s)
  {
    var items := Compressed(s);
    if i :| 0 <= i < |s| - 2 && NegativeAt(s, i) {
      NegativeScanned(s, i, |s|);
      NegativeEmit(ScanOf(s, |s|));
    }
    if j: nat :| j < |items| && items[j].Span? && items[j].start < 0 {
      RoundTrip(s);
      CompressedCost(s);
      ExpandStarts(items, j + 1);
      var t := ExpandIn(items, j);
      SpanConsecutive(s, t, items[j].start, items[j].end);
      RangeAt(items[j].start, items[j].end);
      assert (t + Range(items[j].start, items[j].end))[|t|] == items[j].start;
      assert NegativeAt(s, |t|);
    }
  }
}
