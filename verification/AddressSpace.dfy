/**
 The address manager behind the tensor memory allocators: a first-fit allocator over an
 explicit list of free blocks that is kept sorted and coalesced.
 */
module AddressSpace {

  datatype Block = Block(start: nat, size: nat)
  {
    function End(): nat {
      start + size
    }

    predicate Has(x: int) {
      start <= x < start + size
    }
  }

  // ---- alignment ----

  function BitAnd(x: nat, y: nat): nat {
    if x == 0 || y == 0 then 0 else 2 * BitAnd(x / 2, y / 2) + (if x % 2 == 1 && y % 2 == 1 then 1 else 0)
  }

  function Pow2(k: nat): (p: nat)
    ensures p > 0
  {
    if k == 0 then 1 else 2 * Pow2(k - 1)
  }

  /** `(raw + align - 1) & ~(align - 1)`, where `x & ~m` is `x - (x & m)`. */
  function AlignUp(raw: nat, align: nat): int
    requires align > 0
  {
    (raw + align - 1) - BitAnd(raw + align - 1, align - 1)
  }

  lemma {:induction false} MulStep(a: int, b: int, d: nat)
    requires a < b
    ensures b * d >= a * d + d
  {
    var c := b - a - 1;
    assert c * d >= 0;
    assert b * d == a * d + d + c * d;
  }

  lemma {:induction false} ModUnique(x: nat, d: nat, q: nat, r: nat)
    requires d > 0 && r < d && x == q * d + r
    ensures x % d == r && x / d == q
  {
    var q', r' := x / d, x % d;
    assert x == q' * d + r';
    if q' < q {
      MulStep(q', q, d);
    } else if q < q' {
      MulStep(q, q', d);
    }
  }

  lemma {:induction false} HalfMod(x: nat, p: nat)
    requires p > 0
    ensures x % (2 * p) == 2 * (x / 2 % p) + x % 2
  {
    var h := x / 2;
    var q, r := h / p, h % p;
    assert h == q * p + r;
    assert q * (2 * p) == 2 * (q * p);
    ModUnique(x, 2 * p, q, 2 * r + x % 2);
  }

  /** Masking with one below a power of two takes the remainder. */
  lemma {:induction false} MaskIsMod(x: nat, k: nat)
    ensures BitAnd(x, Pow2(k) - 1) == x % Pow2(k)
    decreases k
  {
    if k > 0 {
      var p := Pow2(k - 1);
      MaskIsMod(x / 2, k - 1);
      HalfMod(x, p);
      MaskStep(x, p);
    }
  }

  lemma {:induction false} MaskStep(x: nat, p: nat)
    requires p > 0
    ensures BitAnd(x, 2 * p - 1) == 2 * BitAnd(x / 2, p - 1) + x % 2
  {
    assert (2 * p - 1) / 2 == p - 1 && (2 * p - 1) % 2 == 1;
  }

  lemma {:induction false} RoundedDown(x: nat, a: nat)
    requires a > 0
    ensures x - x % a >= 0 && (x - x % a) % a == 0
  {
    var q, r := x / a, x % a;
    var y := q * a;
    assert x == y + r;
    ModUnique(y, a, q, 0);
  }

  /** Aligning gives the least multiple of the alignment that holds the request. */
  lemma {:induction false} AlignUpCorrect(raw: nat, k: nat)
    ensures var a, s := Pow2(k), AlignUp(raw, Pow2(k)); raw <= s < raw + a && s % a == 0
  {
    var a := Pow2(k);
    MaskIsMod(raw + a - 1, k);
    RoundedUp(raw, a);
  }

  lemma {:induction false} RoundedUp(raw: nat, a: nat)
    requires a > 0
    ensures var x := raw + a - 1; raw <= x - x % a < raw + a && (x - x % a) % a == 0
  {
    RoundedDown(raw + a - 1, a);
  }

  lemma {:induction false} BitAndAtMost(x: nat, y: nat)
    ensures BitAnd(x, y) <= y
  {
    if x != 0 && y != 0 {
      BitAndAtMost(x / 2, y / 2);
    }
  }

  lemma {:induction false} BitAndSelf(x: nat)
    ensures BitAnd(x, x) == x
  {
    if x != 0 {
      BitAndSelf(x / 2);
    }
  }

  ghost predicate IsPower(a: nat) {
    exists k: nat :: a == Pow2(k)
  }

  /** Whatever the alignment, the masked size holds the request and is less than one alignment above it. */
  lemma {:induction false} AlignUpHolds(raw: nat, a: nat)
    requires a > 0
    ensures raw <= AlignUp(raw, a) < raw + a && (AlignUp(raw, a) == 0 <==> raw == 0)
  {
    BitAndAtMost(raw + a - 1, a - 1);
    if raw == 0 {
      BitAndSelf(a - 1);
    }
  }

  lemma {:induction false} OneBit(a: nat)
    requires a > 0 && BitAnd(a, a - 1) == 0
    ensures IsPower(a)
  {
    if a % 2 == 1 {
      assert (a - 1) / 2 == a / 2;
      BitAndSelf(a / 2);
      assert a == 1 == Pow2(0);
    } else {
      EvenBit(a);
      OneBit(a / 2);
      var k: nat :| a / 2 == Pow2(k);
      assert a == Pow2(k + 1);
    }
  }

  lemma {:induction false} EvenBit(a: nat)
    requires a > 0 && a % 2 == 0
    ensures BitAnd(a, a - 1) == 2 * BitAnd(a / 2, a / 2 - 1)
  {
    assert (a - 1) / 2 == a / 2 - 1;
  }

  lemma {:induction false} OnlyMultiple(s: nat, a: nat)
    requires 0 < s <= a && s % a == 0
    ensures s == a
  {
  }

  /** The mask rounds every size up to a multiple of the alignment exactly when the alignment is a power of two. */
  lemma {:induction false} AlignUpIff(a: nat)
    requires a > 0
    ensures (forall raw: nat :: AlignUp(raw, a) % a == 0) <==> IsPower(a)
  {
    if IsPower(a) {
      var k: nat :| a == Pow2(k);
      forall raw: nat
        ensures AlignUp(raw, a) % a == 0
      {
        AlignUpCorrect(raw, k);
      }
    } else if forall raw: nat :: AlignUp(raw, a) % a == 0 {
      AlignUpHolds(1, a);
      assert AlignUp(1, a) % a == 0;
      OnlyMultiple(AlignUp(1, a), a);
      OneBit(a);
    }
  }

  // ---- free lists ----

  /** Sorted, and a gap between neighbours: nothing is left to coalesce. */
  predicate Gapped(free: seq<Block>) {
    forall i, j | 0 <= i < j < |free| :: free[i].End() < free[j].start
  }

  /** Gapped, and no block is empty. */
  predicate Canonical(free: seq<Block>) {
    (forall i | 0 <= i < |free| :: free[i].size > 0) && Gapped(free)
  }

  ghost predicate IsFree(free: seq<Block>, x: int) {
    exists i :: 0 <= i < |free| && free[i].Has(x)
  }

  /** Two lists describe the same free addresses. */
  ghost predicate SameFree(f: seq<Block>, g: seq<Block>) {
    forall x: int :: IsFree(f, x) <==> IsFree(g, x)
  }

  lemma {:induction false} NotFreeAtEnd(free: seq<Block>, i: nat)
    requires Canonical(free) && i < |free|
    ensures !IsFree(free, free[i].End()) && IsFree(free, free[i].start)
  {
    assert free[i].Has(free[i].start);
  }

  lemma {:induction false} FreeAfter(f: seq<Block>, g: seq<Block>, i: nat, x: int)
    requires Canonical(f) && Canonical(g) && i <= |f| && i <= |g| && i < |f| && x == f[i].start
    requires forall j | 0 <= j < i :: f[j] == g[j]
    requires IsFree(g, x)
    ensures i < |g| && g[i].start <= x
  {
    var k :| 0 <= k < |g| && g[k].Has(x);
    assert k >= i;
    if i < k {
      assert g[i].End() < g[k].start;
    }
  }

  lemma {:induction false} SameAt(f: seq<Block>, g: seq<Block>, i: nat)
    requires Canonical(f) && Canonical(g) && SameFree(f, g) && i < |f| && i <= |g|
    requires forall j | 0 <= j < i :: f[j] == g[j]
    ensures i < |g| && f[i] == g[i]
  {
    NotFreeAtEnd(f, i);
    FreeAfter(f, g, i, f[i].start);
    NotFreeAtEnd(g, i);
    FreeAfter(g, f, i, g[i].start);
    assert !IsFree(g, f[i].End()) && !IsFree(f, g[i].End());
    if f[i].End() < g[i].End() {
      assert g[i].Has(f[i].End());
    } else if g[i].End() < f[i].End() {
      assert f[i].Has(g[i].End());
    }
  }

  lemma {:induction false} SameUpTo(f: seq<Block>, g: seq<Block>, i: nat)
    requires Canonical(f) && Canonical(g) && SameFree(f, g) && i <= |f|
    ensures i <= |g| && forall j | 0 <= j < i :: f[j] == g[j]
  {
    if i > 0 {
      SameUpTo(f, g, i - 1);
      SameAt(f, g, i - 1);
    }
  }

  /** A canonical list is determined by the addresses that are free: history leaves no trace. */
  lemma {:induction false} CanonicalUnique(f: seq<Block>, g: seq<Block>)
    requires Canonical(f) && Canonical(g) && SameFree(f, g)
    ensures f == g
  {
    SameUpTo(f, g, |f|);
    SameUpTo(g, f, |g|);
  }

  // ---- replacing a stretch of the list ----

  function Splice(free: seq<Block>, i: nat, j: nat, mid: seq<Block>): seq<Block>
    requires i <= j <= |free|
  {
    free[..i] + mid + free[j..]
  }

  function TotalSize(free: seq<Block>): nat {
    if free == [] then 0 else TotalSize(free[..|free| - 1]) + free[|free| - 1].size
  }

  lemma {:induction false} TotalSizeConcat(a: seq<Block>, b: seq<Block>)
    ensures TotalSize(a + b) == TotalSize(a) + TotalSize(b)
    decreases |b|
  {
    if b == [] {
      assert a + b == a;
    } else {
      assert (a + b)[..|a + b| - 1] == a + b[..|b| - 1];
      TotalSizeConcat(a, b[..|b| - 1]);
    }
  }

  lemma {:induction false} TotalSizeSplice(free: seq<Block>, i: nat, j: nat, mid: seq<Block>)
    requires i <= j <= |free|
    ensures TotalSize(Splice(free, i, j, mid)) + TotalSize(free[i..j]) == TotalSize(free) + TotalSize(mid)
  {
    TotalSizeConcat(free[..i] + mid, free[j..]);
    TotalSizeConcat(free[..i], mid);
    assert free == free[..i] + free[i..j] + free[j..];
    TotalSizeConcat(free[..i] + free[i..j], free[j..]);
    TotalSizeConcat(free[..i], free[i..j]);
  }

  lemma {:induction false} TotalSizeOne(b: Block)
    ensures TotalSize([b]) == b.size
  {
    assert [b][..0] == [];
  }

  lemma {:induction false} TotalSizeTwo(a: Block, b: Block)
    ensures TotalSize([a, b]) == a.size + b.size
  {
    assert [a, b][..1] == [a];
    TotalSizeOne(a);
  }

  lemma {:induction false} SpliceFree(free: seq<Block>, i: nat, j: nat, mid: seq<Block>, x: int)
    requires i <= j <= |free|
    ensures IsFree(Splice(free, i, j, mid), x)
            <==> IsFree(free[..i], x) || IsFree(mid, x) || IsFree(free[j..], x)
    ensures IsFree(free, x) <==> IsFree(free[..i], x) || IsFree(free[i..j], x) || IsFree(free[j..], x)
  {
    ConcatFree(free[..i] + mid, free[j..], x);
    ConcatFree(free[..i], mid, x);
    assert free == free[..i] + free[i..j] + free[j..];
    ConcatFree(free[..i] + free[i..j], free[j..], x);
    ConcatFree(free[..i], free[i..j], x);
  }

  lemma {:induction false} ConcatFree(a: seq<Block>, b: seq<Block>, x: int)
    ensures IsFree(a + b, x) <==> IsFree(a, x) || IsFree(b, x)
  {
    if IsFree(a, x) {
      var i :| 0 <= i < |a| && a[i].Has(x);
      assert (a + b)[i].Has(x);
    }
    if IsFree(b, x) {
      var i :| 0 <= i < |b| && b[i].Has(x);
      assert (a + b)[|a| + i].Has(x);
    }
    if IsFree(a + b, x) {
      var i :| 0 <= i < |a + b| && (a + b)[i].Has(x);
      if i < |a| {
        assert a[i].Has(x);
      } else {
        assert b[i - |a|].Has(x);
      }
    }
  }

  lemma {:induction false} OneFree(b: Block, x: int)
    ensures IsFree([b], x) <==> b.Has(x)
  {
    if b.Has(x) {
      assert [b][0].Has(x);
    }
  }

  // ---- allocation ----

  /** First block from `i` on that is large enough, or the length of the list. */
  function FirstFit(free: seq<Block>, need: nat, i: nat): (k: nat)
    requires i <= |free|
    ensures i <= k <= |free| && (k < |free| ==> free[k].size >= need)
    ensures forall j | i <= j < k :: free[j].size < need
    decreases |free| - i
  {
    if i == |free| || free[i].size >= need then i else FirstFit(free, need, i + 1)
  }

  /** What is left of a block after taking `need` from its front. */
  function Remainder(b: Block, need: nat): seq<Block>
    requires need <= b.size
  {
    if b.size > need then [Block(b.start + need, b.size - need)] else []
  }

  function Take(free: seq<Block>, i: nat, need: nat): seq<Block>
    requires i < |free| && need <= free[i].size
  {
    Splice(free, i, i + 1, Remainder(free[i], need))
  }

  lemma {:induction false} TakeCanonical(free: seq<Block>, i: nat, need: nat)
    requires Canonical(free) && i < |free| && need <= free[i].size
    ensures Canonical(Take(free, i, need))
  {
  }

  /** Taking from a block removes exactly the taken addresses from the free ones. */
  lemma {:induction false} TakeFree(free: seq<Block>, i: nat, need: nat, x: int)
    requires Canonical(free) && i < |free| && need <= free[i].size
    ensures var b := Block(free[i].start, need);
            && (IsFree(Take(free, i, need), x) <==> IsFree(free, x) && !b.Has(x))
            && (b.Has(x) ==> IsFree(free, x))
  {
    var rest := Remainder(free[i], need);
    SpliceFree(free, i, i + 1, rest, x);
    assert free[i..i + 1] == [free[i]];
    OneFree(free[i], x);
    if rest != [] {
      OneFree(rest[0], x);
    }
    if free[i].Has(x) {
      Apart(free, i, x);
    }
  }

  /** An address in one block of a canonical list is in no other. */
  lemma {:induction false} Apart(free: seq<Block>, i: nat, x: int)
    requires Canonical(free) && i < |free| && free[i].Has(x)
    ensures !IsFree(free[..i], x) && !IsFree(free[i + 1..], x)
  {
  }

  lemma {:induction false} TakeTotal(free: seq<Block>, i: nat, need: nat)
    requires i < |free| && need <= free[i].size
    ensures TotalSize(Take(free, i, need)) + need == TotalSize(free)
  {
    var rest := Remainder(free[i], need);
    TotalSizeSplice(free, i, i + 1, rest);
    assert free[i..i + 1] == [free[i]];
    TotalSizeOne(free[i]);
    if rest != [] {
      TotalSizeOne(rest[0]);
    }
  }

  // ---- release ----

  /** Number of blocks that start before `x`. */
  function Bisect(free: seq<Block>, x: nat, i: nat): (k: nat)
    requires i <= |free|
    ensures i <= k <= |free| && (k < |free| ==> free[k].start >= x)
    ensures forall j | i <= j < k :: free[j].start < x
    decreases |free| - i
  {
    if i == |free| || free[i].start >= x then i else Bisect(free, x, i + 1)
  }

  predicate MergesPrev(free: seq<Block>, b: Block) {
    var k := Bisect(free, b.start, 0);
    k > 0 && free[k - 1].End() == b.start
  }

  predicate MergesNext(free: seq<Block>, b: Block) {
    var k := Bisect(free, b.start, 0);
    k < |free| && b.End() == free[k].start
  }

  /** Where the stretch of blocks that `b` merges with begins and ends. */
  function MergeLow(free: seq<Block>, b: Block): (i: nat)
    ensures i <= Bisect(free, b.start, 0)
  {
    var k := Bisect(free, b.start, 0);
    if MergesPrev(free, b) then k - 1 else k
  }

  function MergeHigh(free: seq<Block>, b: Block): (i: nat)
    ensures Bisect(free, b.start, 0) <= i <= |free|
  {
    var k := Bisect(free, b.start, 0);
    if MergesNext(free, b) then k + 1 else k
  }

  /** The block `b` together with the free neighbours it touches. */
  function MergedBlock(free: seq<Block>, b: Block): Block {
    var k := Bisect(free, b.start, 0);
    var before := if MergesPrev(free, b) then free[k - 1].size else 0;
    var after := if MergesNext(free, b) then free[k].size else 0;
    Block(if MergesPrev(free, b) then free[k - 1].start else b.start, before + b.size + after)
  }

  /** The list with `b` inserted and coalesced with its neighbours. */
  function Put(free: seq<Block>, b: Block): seq<Block> {
    Splice(free, MergeLow(free, b), MergeHigh(free, b), [MergedBlock(free, b)])
  }

  /** None of the addresses of `b` is free. */
  ghost predicate InUse(free: seq<Block>, b: Block) {
    b.size > 0 && forall x: int | b.Has(x) :: !IsFree(free, x)
  }

  /** A free block that starts at or after `b` starts after its end. */
  lemma {:induction false} StartsBeyond(free: seq<Block>, b: Block, i: nat)
    requires Canonical(free) && InUse(free, b) && i < |free| && free[i].start >= b.start
    ensures b.End() <= free[i].start
  {
    NotFreeAtEnd(free, i);
  }

  /** A free block that starts before `b` ends before it. */
  lemma {:induction false} EndsBefore(free: seq<Block>, b: Block, i: nat)
    requires InUse(free, b) && i < |free| && free[i].start < b.start
    ensures free[i].End() <= b.start
  {
    assert b.Has(b.start);
    assert !free[i].Has(b.start);
  }

  lemma {:induction false} UseFits(free: seq<Block>, b: Block)
    requires Canonical(free) && InUse(free, b)
    ensures var k := Bisect(free, b.start, 0);
            && (forall i | 0 <= i < k :: free[i].End() <= b.start)
            && (forall i | k <= i < |free| :: b.End() <= free[i].start)
  {
    var k := Bisect(free, b.start, 0);
    forall i | 0 <= i < k
      ensures free[i].End() <= b.start
    {
      EndsBefore(free, b, i);
    }
    forall i | k <= i < |free|
      ensures b.End() <= free[i].start
    {
      assert k < i ==> free[k].End() < free[i].start;
      StartsBeyond(free, b, i);
    }
  }

  /** The merged block is apart from everything it does not merge with. */
  lemma {:induction false} MergedApart(free: seq<Block>, b: Block)
    requires Canonical(free) && InUse(free, b)
    ensures var m := MergedBlock(free, b);
            && m.size > 0
            && (forall i | 0 <= i < MergeLow(free, b) :: free[i].End() < m.start)
            && (forall i | MergeHigh(free, b) <= i < |free| :: m.End() < free[i].start)
  {
    UseFits(free, b);
  }

  lemma {:induction false} SpliceCanonical(free: seq<Block>, i: nat, j: nat, m: Block)
    requires Canonical(free) && i <= j <= |free| && m.size > 0
    requires forall k | 0 <= k < i :: free[k].End() < m.start
    requires forall k | j <= k < |free| :: m.End() < free[k].start
    ensures Canonical(Splice(free, i, j, [m]))
  {
  }

  lemma {:induction false} PutCanonical(free: seq<Block>, b: Block)
    requires Canonical(free) && InUse(free, b)
    ensures Canonical(Put(free, b))
  {
    MergedApart(free, b);
    SpliceCanonical(free, MergeLow(free, b), MergeHigh(free, b), MergedBlock(free, b));
  }

  lemma {:induction false} SliceOne(free: seq<Block>, i: nat, x: int)
    requires i < |free|
    ensures free[i..i + 1] == [free[i]] && (IsFree(free[i..i + 1], x) <==> free[i].Has(x))
  {
    OneFree(free[i], x);
  }

  lemma {:induction false} SliceTwo(free: seq<Block>, i: nat, x: int)
    requires i + 1 < |free|
    ensures free[i..i + 2] == [free[i], free[i + 1]]
    ensures IsFree(free[i..i + 2], x) <==> free[i].Has(x) || free[i + 1].Has(x)
  {
    assert free[i..i + 2] == [free[i]] + [free[i + 1]];
    ConcatFree([free[i]], [free[i + 1]], x);
    OneFree(free[i], x);
    OneFree(free[i + 1], x);
  }

  /** The merged block has the addresses of `b` and of the blocks it replaces. */
  lemma {:induction false} MergedHas(free: seq<Block>, b: Block, x: int)
    ensures MergedBlock(free, b).Has(x) <==> b.Has(x) || IsFree(free[MergeLow(free, b)..MergeHigh(free, b)], x)
    ensures MergedBlock(free, b).size == b.size + TotalSize(free[MergeLow(free, b)..MergeHigh(free, b)])
  {
    var k := Bisect(free, b.start, 0);
    if MergesPrev(free, b) && MergesNext(free, b) {
      SliceTwo(free, k - 1, x);
      TotalSizeTwo(free[k - 1], free[k]);
    } else if MergesPrev(free, b) {
      SliceOne(free, k - 1, x);
      TotalSizeOne(free[k - 1]);
    } else if MergesNext(free, b) {
      SliceOne(free, k, x);
      TotalSizeOne(free[k]);
    } else {
      assert free[k..k] == [];
    }
  }

  /** Releasing a block makes exactly its addresses free. */
  lemma {:induction false} PutFree(free: seq<Block>, b: Block, x: int)
    ensures IsFree(Put(free, b), x) <==> IsFree(free, x) || b.Has(x)
  {
    SpliceFree(free, MergeLow(free, b), MergeHigh(free, b), [MergedBlock(free, b)], x);
    MergedHas(free, b, x);
    OneFree(MergedBlock(free, b), x);
  }

  lemma {:induction false} PutTotal(free: seq<Block>, b: Block)
    ensures TotalSize(Put(free, b)) == TotalSize(free) + b.size
  {
    TotalSizeSplice(free, MergeLow(free, b), MergeHigh(free, b), [MergedBlock(free, b)]);
    MergedHas(free, b, 0);
    TotalSizeOne(MergedBlock(free, b));
  }

  /** Releasing what was just allocated restores the free list exactly. */
  lemma {:induction false} PutUndoesTake(free: seq<Block>, i: nat, need: nat)
    requires Canonical(free) && i < |free| && 0 < need <= free[i].size
    ensures Put(Take(free, i, need), Block(free[i].start, need)) == free
  {
    var b, taken := Block(free[i].start, need), Take(free, i, need);
    TakeCanonical(free, i, need);
    forall x: int | b.Has(x)
      ensures !IsFree(taken, x)
    {
      TakeFree(free, i, need, x);
    }
    PutCanonical(taken, b);
    forall x: int
      ensures IsFree(Put(taken, b), x) <==> IsFree(free, x)
    {
      PutFree(taken, b, x);
      TakeFree(free, i, need, x);
    }
    CanonicalUnique(Put(taken, b), free);
  }

  predicate Disjoint(a: Block, b: Block) {
    a.End() <= b.start || b.End() <= a.start
  }

  lemma {:induction false} DisjointHas(a: Block, b: Block, x: int)
    requires Disjoint(a, b)
    ensures !(a.Has(x) && b.Has(x))
  {
  }

  lemma {:induction false} PutKeepsInUse(free: seq<Block>, a: Block, b: Block)
    requires Canonical(free) && InUse(free, a) && InUse(free, b) && Disjoint(a, b)
    ensures InUse(Put(free, a), b)
  {
    forall x: int | b.Has(x)
      ensures !IsFree(Put(free, a), x)
    {
      PutFree(free, a, x);
      DisjointHas(a, b, x);
    }
  }

  /** The order in which blocks are released does not matter. */
  lemma {:induction false} PutCommutes(free: seq<Block>, a: Block, b: Block)
    requires Canonical(free) && InUse(free, a) && InUse(free, b) && Disjoint(a, b)
    ensures Put(Put(free, a), b) == Put(Put(free, b), a)
  {
    PutCanonical(free, a);
    PutCanonical(free, b);
    PutKeepsInUse(free, a, b);
    PutKeepsInUse(free, b, a);
    PutCanonical(Put(free, a), b);
    PutCanonical(Put(free, b), a);
    forall x: int
      ensures IsFree(Put(Put(free, a), b), x) <==> IsFree(Put(Put(free, b), a), x)
    {
      PutFree(Put(free, a), b, x);
      PutFree(free, a, x);
      PutFree(Put(free, b), a, x);
      PutFree(free, b, x);
    }
    CanonicalUnique(Put(Put(free, a), b), Put(Put(free, b), a));
  }

  /** Releasing adjacent blocks as one gives the same list as releasing them one by one. */
  lemma {:induction false} PutAdjacent(free: seq<Block>, a: Block, b: Block)
    requires Canonical(free) && InUse(free, a) && InUse(free, b) && a.End() == b.start
    ensures InUse(free, Block(a.start, a.size + b.size))
    ensures Put(free, Block(a.start, a.size + b.size)) == Put(Put(free, a), b)
  {
    var whole := Block(a.start, a.size + b.size);
    assert forall x: int :: whole.Has(x) <==> a.Has(x) || b.Has(x);
    PutCanonical(free, whole);
    PutCanonical(free, a);
    PutKeepsInUse(free, a, b);
    PutCanonical(Put(free, a), b);
    forall x: int
      ensures IsFree(Put(free, whole), x) <==> IsFree(Put(Put(free, a), b), x)
    {
      PutFree(free, whole, x);
      PutFree(Put(free, a), b, x);
      PutFree(free, a, x);
    }
    CanonicalUnique(Put(free, whole), Put(Put(free, a), b));
  }

  // ---- spaces ----

  /** The size of a space, its free blocks and the blocks handed out. */
  datatype Space = Space(size: nat, free: seq<Block>, live: seq<Block>)

  predicate AllDisjoint(live: seq<Block>) {
    forall i, j | 0 <= i < j < |live| :: Disjoint(live[i], live[j])
  }

  ghost predicate AllInUse(free: seq<Block>, live: seq<Block>) {
    forall i | 0 <= i < |live| :: InUse(free, live[i])
  }

  /** Every address is free or in a block handed out, and nothing else is. */
  ghost predicate Covers(s: Space) {
    forall x: int :: 0 <= x < s.size <==> OwnedBy(s, x)
  }

  ghost predicate OwnedBy(s: Space, x: int) {
    IsFree(s.free, x) || IsFree(s.live, x)
  }

  ghost predicate Inv(s: Space) {
    && Canonical(s.free) && AllInUse(s.free, s.live) && AllDisjoint(s.live) && Covers(s)
    && TotalSize(s.free) + TotalSize(s.live) == s.size
  }

  function Fresh(size: nat): Space {
    Space(size, [Block(0, size)], [])
  }

  lemma {:induction false} FreshInv(size: nat)
    requires size > 0
    ensures Inv(Fresh(size))
  {
    var s := Fresh(size);
    TotalSizeOne(Block(0, size));
    forall x: int
      ensures 0 <= x < s.size <==> OwnedBy(s, x)
    {
      OneFree(Block(0, size), x);
    }
  }

  // ---- handing out a block ----

  function Fit(s: Space, need: nat): nat {
    FirstFit(s.free, need, 0)
  }

  function AllocateStep(s: Space, need: nat): Space
    requires Fit(s, need) < |s.free|
  {
    var i := Fit(s, need);
    Space(s.size, Take(s.free, i, need), s.live + [Block(s.free[i].start, need)])
  }

  lemma {:induction false} StaysInUse(f: seq<Block>, g: seq<Block>, c: Block)
    requires InUse(f, c) && forall x: int :: IsFree(g, x) ==> IsFree(f, x)
    ensures InUse(g, c)
  {
  }

  /** Blocks without a common address do not overlap. */
  lemma {:induction false} NoCommon(a: Block, b: Block)
    requires a.size > 0 && b.size > 0 && !a.Has(b.start) && !b.Has(a.start)
    ensures a.End() <= b.start || b.End() <= a.start
  {
  }

  lemma {:induction false} TakenApart(free: seq<Block>, i: nat, need: nat, c: Block)
    requires Canonical(free) && i < |free| && 0 < need <= free[i].size && InUse(free, c)
    ensures var b := Block(free[i].start, need); c.End() <= b.start || b.End() <= c.start
  {
    var b := Block(free[i].start, need);
    TakeFree(free, i, need, b.start);
    TakeFree(free, i, need, c.start);
    assert c.Has(c.start) && b.Has(b.start);
    NoCommon(c, b);
  }

  lemma {:induction false} AllocateInUse(free: seq<Block>, live: seq<Block>, i: nat, need: nat)
    requires Canonical(free) && AllInUse(free, live) && i < |free| && 0 < need <= free[i].size
    ensures AllInUse(Take(free, i, need), live + [Block(free[i].start, need)])
  {
    var b, taken := Block(free[i].start, need), Take(free, i, need);
    forall x: int
      ensures IsFree(taken, x) ==> IsFree(free, x) && !b.Has(x)
    {
      TakeFree(free, i, need, x);
    }
    forall j | 0 <= j < |live|
      ensures InUse(taken, live[j])
    {
      StaysInUse(free, taken, live[j]);
    }
  }

  lemma {:induction false} AllocateApart(free: seq<Block>, live: seq<Block>, i: nat, need: nat)
    requires Canonical(free) && AllInUse(free, live) && AllDisjoint(live) && i < |free| && 0 < need <= free[i].size
    ensures AllDisjoint(live + [Block(free[i].start, need)])
  {
    forall j | 0 <= j < |live|
      ensures live[j].End() <= free[i].start || free[i].start + need <= live[j].start
    {
      TakenApart(free, i, need, live[j]);
    }
  }

  lemma {:induction false} AllocateCovers(s: Space, i: nat, need: nat)
    requires Canonical(s.free) && Covers(s) && i < |s.free| && need <= s.free[i].size
    ensures Covers(Space(s.size, Take(s.free, i, need), s.live + [Block(s.free[i].start, need)]))
  {
    var b := Block(s.free[i].start, need);
    var s' := Space(s.size, Take(s.free, i, need), s.live + [b]);
    forall x: int
      ensures 0 <= x < s.size <==> OwnedBy(s', x)
    {
      TakeFree(s.free, i, need, x);
      ConcatFree(s.live, [b], x);
      OneFree(b, x);
      assert 0 <= x < s.size <==> OwnedBy(s, x);
    }
  }

  /** Allocation keeps every address in exactly one free or live block. */
  lemma {:induction false} AllocateInv(s: Space, need: nat)
    requires Inv(s) && need > 0 && Fit(s, need) < |s.free|
    ensures Inv(AllocateStep(s, need))
  {
    var i := Fit(s, need);
    TakeCanonical(s.free, i, need);
    AllocateInUse(s.free, s.live, i, need);
    AllocateApart(s.free, s.live, i, need);
    AllocateCovers(s, i, need);
    TakeTotal(s.free, i, need);
    TotalSizeConcat(s.live, [Block(s.free[i].start, need)]);
    TotalSizeOne(Block(s.free[i].start, need));
  }

  // ---- taking a block back ----

  function Without(live: seq<Block>, j: nat): seq<Block>
    requires j < |live|
  {
    live[..j] + live[j + 1..]
  }

  function FreeStep(s: Space, j: nat): Space
    requires j < |s.live|
  {
    Space(s.size, Put(s.free, s.live[j]), Without(s.live, j))
  }

  lemma {:induction false} WithoutHas(live: seq<Block>, j: nat, x: int)
    requires j < |live|
    ensures IsFree(live, x) <==> IsFree(Without(live, j), x) || live[j].Has(x)
  {
    assert live == live[..j] + ([live[j]] + live[j + 1..]);
    ConcatFree(live[..j], [live[j]] + live[j + 1..], x);
    ConcatFree([live[j]], live[j + 1..], x);
    ConcatFree(live[..j], live[j + 1..], x);
    OneFree(live[j], x);
  }

  lemma {:induction false} WithoutTotal(live: seq<Block>, j: nat)
    requires j < |live|
    ensures TotalSize(Without(live, j)) + live[j].size == TotalSize(live)
  {
    assert live == live[..j] + ([live[j]] + live[j + 1..]);
    TotalSizeConcat(live[..j], [live[j]] + live[j + 1..]);
    TotalSizeConcat([live[j]], live[j + 1..]);
    TotalSizeConcat(live[..j], live[j + 1..]);
    TotalSizeOne(live[j]);
  }

  lemma {:induction false} WithoutApart(live: seq<Block>, j: nat)
    requires j < |live| && AllDisjoint(live)
    ensures AllDisjoint(Without(live, j))
  {
    var rest := Without(live, j);
    forall a, b | 0 <= a < b < |rest|
      ensures rest[a].End() <= rest[b].start || rest[b].End() <= rest[a].start
    {
      var i, k := if a < j then a else a + 1, if b < j then b else b + 1;
      assert rest[a] == live[i] && rest[b] == live[k];
    }
  }

  lemma {:induction false} FreeInUse(free: seq<Block>, live: seq<Block>, j: nat)
    requires Canonical(free) && AllInUse(free, live) && AllDisjoint(live) && j < |live|
    ensures AllInUse(Put(free, live[j]), Without(live, j))
  {
    var rest := Without(live, j);
    forall a | 0 <= a < |rest|
      ensures InUse(Put(free, live[j]), rest[a])
    {
      var i := if a < j then a else a + 1;
      assert rest[a] == live[i] && InUse(free, live[i]) && InUse(free, live[j]);
      assert Disjoint(live[j], live[i]);
      PutKeepsInUse(free, live[j], live[i]);
    }
  }

  lemma {:induction false} FreeCovers(s: Space, j: nat)
    requires Covers(s) && j < |s.live|
    ensures Covers(FreeStep(s, j))
  {
    var s' := FreeStep(s, j);
    forall x: int
      ensures 0 <= x < s.size <==> OwnedBy(s', x)
    {
      PutFree(s.free, s.live[j], x);
      WithoutHas(s.live, j, x);
      assert 0 <= x < s.size <==> OwnedBy(s, x);
    }
  }

  lemma {:induction false} FreeInv(s: Space, j: nat)
    requires Inv(s) && j < |s.live|
    ensures Inv(FreeStep(s, j))
  {
    assert InUse(s.free, s.live[j]);
    PutCanonical(s.free, s.live[j]);
    FreeInUse(s.free, s.live, j);
    WithoutApart(s.live, j);
    FreeCovers(s, j);
    PutTotal(s.free, s.live[j]);
    WithoutTotal(s.live, j);
  }

  // ---- growing ----

  function GrowStep(s: Space, n: nat): Space {
    Space(s.size + n, Put(s.free, Block(s.size, n)), s.live)
  }

  lemma {:induction false} BeyondUnused(s: Space, n: nat)
    requires Covers(s) && n > 0
    ensures InUse(s.free, Block(s.size, n))
  {
    forall x: int | Block(s.size, n).Has(x)
      ensures !IsFree(s.free, x)
    {
      assert !(0 <= x < s.size) ==> !OwnedBy(s, x);
    }
  }

  lemma {:induction false} LiveBelow(s: Space, i: nat)
    requires Inv(s) && i < |s.live|
    ensures s.live[i].End() <= s.size
  {
    var b := s.live[i];
    assert InUse(s.free, b);
    assert b.Has(b.End() - 1);
    assert IsFree(s.live, b.End() - 1);
    assert OwnedBy(s, b.End() - 1);
  }

  lemma {:induction false} GrowCovers(s: Space, n: nat)
    requires Covers(s)
    ensures Covers(GrowStep(s, n))
  {
    var s', b := GrowStep(s, n), Block(s.size, n);
    forall x: int
      ensures 0 <= x < s'.size <==> OwnedBy(s', x)
    {
      PutFree(s.free, b, x);
      assert 0 <= x < s.size <==> OwnedBy(s, x);
    }
  }

  lemma {:induction false} GrowInv(s: Space, n: nat)
    requires Inv(s) && n > 0
    ensures Inv(GrowStep(s, n))
  {
    var b := Block(s.size, n);
    BeyondUnused(s, n);
    PutCanonical(s.free, b);
    forall i | 0 <= i < |s.live|
      ensures InUse(Put(s.free, b), s.live[i])
    {
      LiveBelow(s, i);
      assert InUse(s.free, s.live[i]);
      PutKeepsInUse(s.free, b, s.live[i]);
    }
    GrowCovers(s, n);
    PutTotal(s.free, b);
  }

  // ---- runs ----

  /** Requests for aligned sizes, the return of a live block, and growth by an aligned size. */
  datatype Event = Allocate(need: nat) | Release(j: nat) | Grow(n: nat)

  /** One event; a request that cannot be met changes nothing. */
  function Step(s: Space, e: Event): Space {
    match e
    case Allocate(need) => if need > 0 && Fit(s, need) < |s.free| then AllocateStep(s, need) else s
    case Release(j) => if j < |s.live| then FreeStep(s, j) else s
    case Grow(n) => if n > 0 then GrowStep(s, n) else s
  }

  function SpaceAfter(size: nat, es: seq<Event>, n: nat): Space
    requires n <= |es|
  {
    if n == 0 then Fresh(size) else Step(SpaceAfter(size, es, n - 1), es[n - 1])
  }

  lemma {:induction false} StepInv(s: Space, e: Event)
    requires Inv(s)
    ensures Inv(Step(s, e))
  {
    match e
    case Allocate(need) =>
      if need > 0 && Fit(s, need) < |s.free| {
        AllocateInv(s, need);
      }
    case Release(j) =>
      if j < |s.live| {
        FreeInv(s, j);
      }
    case Grow(n) =>
      if n > 0 {
        GrowInv(s, n);
      }
  }

  /** Over every run: no overlap, no leak, no hole, and a free list with nothing left to coalesce. */
  lemma {:induction false} RunInv(size: nat, es: seq<Event>, n: nat)
    requires size > 0 && n <= |es|
    ensures Inv(SpaceAfter(size, es, n))
  {
    if n == 0 {
      FreshInv(size);
    } else {
      RunInv(size, es, n - 1);
      StepInv(SpaceAfter(size, es, n - 1), es[n - 1]);
    }
  }

  /** The free list depends on the live blocks alone, not on how they came about. */
  lemma {:induction false} NoHistory(s: Space, t: Space)
    requires Inv(s) && Inv(t) && s.size == t.size && forall x: int :: IsFree(s.live, x) <==> IsFree(t.live, x)
    ensures s.free == t.free
  {
    forall x: int
      ensures IsFree(s.free, x) <==> IsFree(t.free, x)
    {
      FreeIff(s, x);
      FreeIff(t, x);
    }
    CanonicalUnique(s.free, t.free);
  }

  lemma {:induction false} FreeIff(s: Space, x: int)
    requires Inv(s)
    ensures IsFree(s.free, x) <==> 0 <= x < s.size && !IsFree(s.live, x)
  {
    assert 0 <= x < s.size <==> OwnedBy(s, x);
    if IsFree(s.live, x) {
      var i :| 0 <= i < |s.live| && s.live[i].Has(x);
      assert InUse(s.free, s.live[i]);
    }
  }

  /** When everything has been returned, the space is one free block again. */
  lemma {:induction false} AllReturned(s: Space)
    requires Inv(s) && s.live == [] && s.size > 0
    ensures s.free == [Block(0, s.size)]
  {
    FreshInv(s.size);
    NoHistory(s, Fresh(s.size));
  }

  // ---- the sorted list ----

  function Removed(free: seq<Block>, i: nat): seq<Block>
    requires i < |free|
  {
    free[..i] + free[i + 1..]
  }

  /** Insertion at the place that the start of the block asks for. */
  function Added(free: seq<Block>, b: Block): seq<Block> {
    var k := Bisect(free, b.start, 0);
    Splice(free, k, k, [b])
  }

  lemma {:induction false} BisectAt(free: seq<Block>, x: nat, i: nat, k: nat)
    requires i <= k <= |free| && (forall j | i <= j < k :: free[j].start < x) && (k < |free| ==> free[k].start >= x)
    ensures Bisect(free, x, i) == k
    decreases k - i
  {
    if i < k {
      BisectAt(free, x, i + 1, k);
    }
  }

  /** Removing a block and adding one that takes its place in the order. */
  lemma {:induction false} Replaced(free: seq<Block>, i: nat, b: Block)
    requires Gapped(free) && i < |free| && b.size > 0
    requires (i > 0 ==> free[i - 1].start < b.start) && b.End() == free[i].End()
    ensures Added(Removed(free, i), b) == Splice(free, i, i + 1, [b])
  {
    var rest := Removed(free, i);
    forall j | 0 <= j < i
      ensures rest[j].start < b.start
    {
      assert j < i - 1 ==> free[j].End() < free[i - 1].start;
    }
    if i < |rest| {
      assert rest[i] == free[i + 1];
    }
    BisectAt(rest, b.start, 0, i);
  }
}
