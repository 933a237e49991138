/** The address manager as an object, with the alignment of everything it hands out. */
module AddressManager {
  import opened Text
  import opened Arithmetic
  import opened AddressSpace
  import opened BatchedAllocation

  // ---- alignment over a run ----

  predicate Aligned(x: int, a: nat)
    requires a > 0
  {
    x % a == 0
  }

  lemma {:induction false} AlignedSum(x: nat, y: nat, a: nat)
    requires a > 0 && Aligned(x, a) && Aligned(y, a)
    ensures Aligned(x + y, a)
  {
    var p, q := x / a, y / a;
    assert x == p * a && y == q * a;
    assert x + y == (p + q) * a;
    ModUnique(x + y, a, p + q, 0);
  }

  /** What all sizes are multiples of: the alignment if it is a power of two, and nothing else otherwise. */
  ghost function Grain(a: nat): (u: nat)
    requires a > 0
    ensures u > 0
  {
    if IsPower(a) then a else 1
  }

  lemma {:induction false} AlignUpGrain(raw: nat, a: nat)
    requires a > 0
    ensures var s := AlignUp(raw, a); raw <= s < raw + a && (s == 0 <==> raw == 0) && Aligned(s, Grain(a))
  {
    AlignUpHolds(raw, a);
    if IsPower(a) {
      AlignUpIff(a);
    }
  }

  predicate AlignedBlocks(free: seq<Block>, live: seq<Block>, a: nat)
    requires a > 0
  {
    && (forall i | 0 <= i < |free| :: Aligned(free[i].start, a))
    && forall i | 0 <= i < |live| :: Aligned(live[i].start, a) && Aligned(live[i].size, a)
  }

  lemma {:induction false} AllocateAligned(s: Space, need: nat, a: nat)
    requires a > 0 && AlignedBlocks(s.free, s.live, a) && Aligned(need, a) && Fit(s, need) < |s.free|
    ensures var s' := AllocateStep(s, need); AlignedBlocks(s'.free, s'.live, a)
  {
    AlignedSum(s.free[Fit(s, need)].start, need, a);
  }

  lemma {:induction false} PutAligned(free: seq<Block>, live: seq<Block>, b: Block, a: nat)
    requires a > 0 && AlignedBlocks(free, live, a) && (MergesPrev(free, b) || Aligned(b.start, a))
    ensures AlignedBlocks(Put(free, b), live, a)
  {
  }

  lemma {:induction false} FreeAligned(s: Space, j: nat, a: nat)
    requires a > 0 && AlignedBlocks(s.free, s.live, a) && j < |s.live|
    ensures var s' := FreeStep(s, j); AlignedBlocks(s'.free, s'.live, a)
  {
    PutAligned(s.free, s.live, s.live[j], a);
  }

  lemma {:induction false} FreeBelow(s: Space, i: nat)
    requires Inv(s) && i < |s.free|
    ensures s.free[i].End() <= s.size
  {
    var x := s.free[i].End() - 1;
    assert s.free[i].Has(x);
    assert IsFree(s.free, x);
    assert OwnedBy(s, x);
  }

  /** The tail of an unaligned space belongs to no aligned block, so it is free. */
  lemma {:induction false} TailIsFree(s: Space, a: nat)
    requires Inv(s) && a > 0 && AlignedBlocks(s.free, s.live, a) && !Aligned(s.size, a)
    ensures s.size > 0 && IsFree(s.free, s.size - 1)
  {
    FreeIff(s, s.size - 1);
    if IsFree(s.live, s.size - 1) {
      var i :| 0 <= i < |s.live| && s.live[i].Has(s.size - 1);
      LiveBelow(s, i);
      AlignedSum(s.live[i].start, s.live[i].size, a);
    }
  }

  lemma {:induction false} BisectEnd(free: seq<Block>, x: nat, i: nat)
    requires i <= |free| && forall j | 0 <= j < |free| :: free[j].start < x
    ensures Bisect(free, x, i) == |free|
  {
  }

  lemma {:induction false} GrowsAtEnd(s: Space)
    requires Inv(s)
    ensures Bisect(s.free, s.size, 0) == |s.free|
  {
    forall j | 0 <= j < |s.free|
      ensures s.free[j].start < s.size
    {
      FreeBelow(s, j);
    }
    BisectEnd(s.free, s.size, 0);
  }

  lemma {:induction false} EndsEarlier(free: seq<Block>, i: nat, j: nat)
    requires Canonical(free) && i <= j < |free|
    ensures i < j ==> free[i].End() < free[j].End()
  {
  }

  lemma {:induction false} TailMerges(s: Space, n: nat)
    requires Inv(s) && s.size > 0 && IsFree(s.free, s.size - 1)
    ensures MergesPrev(s.free, Block(s.size, n))
  {
    GrowsAtEnd(s);
    var i :| 0 <= i < |s.free| && s.free[i].Has(s.size - 1);
    FreeBelow(s, i);
    var last: nat := |s.free| - 1;
    FreeBelow(s, last);
    EndsEarlier(s.free, i, last);
  }

  /** Growing keeps every start aligned, even when the space itself never was. */
  lemma {:induction false} GrowAligned(s: Space, n: nat, a: nat)
    requires Inv(s) && a > 0 && AlignedBlocks(s.free, s.live, a)
    ensures var s' := GrowStep(s, n); AlignedBlocks(s'.free, s'.live, a)
  {
    if !Aligned(s.size, a) {
      TailIsFree(s, a);
      TailMerges(s, n);
    }
    PutAligned(s.free, s.live, Block(s.size, n), a);
  }

  // ---- what every operation keeps ----

  /** The space is sound, everything is aligned, and the total of the blocks handed out is known. */
  ghost predicate Good(s: Space, a: nat, total: int) {
    a > 0 && Inv(s) && AlignedBlocks(s.free, s.live, a) && total == TotalSize(s.live)
  }

  lemma {:induction false} FreshGood(size: nat, a: nat)
    requires size > 0 && a > 0
    ensures Good(Fresh(size), a, 0)
  {
    FreshInv(size);
  }

  lemma {:induction false} AllocateGood(s: Space, need: nat, a: nat, total: int)
    requires Good(s, a, total) && need > 0 && Aligned(need, a) && Fit(s, need) < |s.free|
    ensures Good(AllocateStep(s, need), a, total + need)
    ensures Aligned(s.free[Fit(s, need)].start, a)
  {
    var b := Block(s.free[Fit(s, need)].start, need);
    AllocateInv(s, need);
    AllocateAligned(s, need, a);
    TotalSizeConcat(s.live, [b]);
    TotalSizeOne(b);
  }

  lemma {:induction false} FreeGood(s: Space, j: nat, a: nat, total: int)
    requires Good(s, a, total) && j < |s.live|
    ensures Good(FreeStep(s, j), a, total - s.live[j].size) && InUse(s.free, s.live[j])
  {
    FreeInv(s, j);
    FreeAligned(s, j, a);
    WithoutTotal(s.live, j);
  }

  lemma {:induction false} GrowGood(s: Space, n: nat, a: nat, total: int)
    requires Good(s, a, total) && n > 0
    ensures Good(GrowStep(s, n), a, total)
  {
    GrowInv(s, n);
    GrowAligned(s, n, a);
  }

  ghost predicate TailFree(s: Space) {
    s.size > 0 && IsFree(s.free, s.size - 1)
  }

  lemma {:induction false} MergesTail(s: Space, n: nat)
    requires Inv(s)
    ensures MergesPrev(s.free, Block(s.size, n)) ==> TailFree(s)
  {
    if MergesPrev(s.free, Block(s.size, n)) {
      GrowsAtEnd(s);
      assert s.free[|s.free| - 1].Has(s.size - 1);
    }
  }

  /** Growth by nothing changes nothing behind a free tail, and otherwise leaves an empty free block. */
  lemma {:induction false} GrowNothing(s: Space, a: nat, total: int)
    requires Good(s, a, total)
    ensures GrowStep(s, 0) == if TailFree(s) then s else s.(free := s.free + [Block(s.size, 0)])
    ensures Good(GrowStep(s, 0), a, total) <==> TailFree(s)
  {
    GrowsAtEnd(s);
    MergesTail(s, 0);
    if TailFree(s) {
      TailMerges(s, 0);
    } else {
      assert GrowStep(s, 0).free == s.free + [Block(s.size, 0)];
      assert GrowStep(s, 0).free[|s.free|].size == 0;
    }
  }

  // ---- an empty block at the end ----

  /** The space ends in the empty block that growth by nothing can leave. */
  ghost predicate HasEmpty(s: Space) {
    s.free != [] && s.free[|s.free| - 1] == Block(s.size, 0)
  }

  ghost function WithEmpty(s: Space): Space {
    s.(free := s.free + [Block(s.size, 0)])
  }

  /** The space without its empty block. */
  ghost function Core(s: Space): Space {
    if HasEmpty(s) then s.(free := s.free[..|s.free| - 1]) else s
  }

  /** Something is wrong with the space, or its empty block should have been merged. */
  ghost predicate Faulty(s: Space, a: nat, total: int) {
    !Good(Core(s), a, total) || (HasEmpty(s) && TailFree(Core(s)))
  }

  /** Good, but for an empty block behind a tail in use. */
  ghost predicate Sound(s: Space, a: nat, total: int) {
    !Faulty(s, a, total)
  }

  lemma {:induction false} GoodIsSound(s: Space, a: nat, total: int)
    requires Good(s, a, total)
    ensures !HasEmpty(s) && Sound(s, a, total)
  {
    assert s.free != [] ==> s.free[|s.free| - 1].size > 0;
  }

  /** A space without any address starts with an empty block. */
  lemma {:induction false} FreshSound(size: nat, a: nat)
    requires a > 0
    ensures Sound(Fresh(size), a, 0)
  {
    if size > 0 {
      FreshGood(size, a);
      GoodIsSound(Fresh(size), a, 0);
    } else {
      NowhereGood(Space(size, [], []), a);
      EmptyIsSound(Space(size, [], []), a, 0);
    }
  }

  lemma {:induction false} NowhereGood(s: Space, a: nat)
    requires a > 0 && s == Space(0, [], [])
    ensures Good(s, a, 0) && !TailFree(s) && WithEmpty(s) == Fresh(0)
  {
    forall x: int
      ensures 0 <= x < s.size <==> OwnedBy(s, x)
    {
    }
  }

  lemma {:induction false} CoreOfEmpty(s: Space)
    ensures HasEmpty(WithEmpty(s)) && Core(WithEmpty(s)) == s
    ensures HasEmpty(s) ==> WithEmpty(Core(s)) == s
  {
    assert WithEmpty(s).free[..|s.free|] == s.free;
  }

  lemma {:induction false} EmptyIsSound(s: Space, a: nat, total: int)
    requires Good(s, a, total) && !TailFree(s)
    ensures Sound(WithEmpty(s), a, total)
  {
    CoreOfEmpty(s);
  }

  lemma {:induction false} EndsBelow(s: Space, i: nat)
    requires Inv(s) && !TailFree(s) && i < |s.free|
    ensures s.free[i].End() < s.size
  {
    FreeBelow(s, i);
    EndIsTail(s, i);
  }

  lemma {:induction false} EndIsTail(s: Space, i: nat)
    requires Inv(s) && i < |s.free|
    ensures s.free[i].End() == s.size ==> TailFree(s)
  {
    assert s.free[i].size > 0;
    if s.free[i].End() == s.size {
      assert s.free[i].Has(s.size - 1);
    }
  }

  lemma {:induction false} EmptyGapped(s: Space)
    requires Inv(s) && !TailFree(s)
    ensures Gapped(WithEmpty(s).free)
  {
    forall i | 0 <= i < |s.free|
      ensures s.free[i].End() < s.size
    {
      EndsBelow(s, i);
    }
  }

  lemma {:induction false} SoundGapped(s: Space, a: nat, total: int)
    requires Sound(s, a, total)
    ensures Gapped(s.free)
  {
    if HasEmpty(s) {
      CoreOfEmpty(s);
      EmptyGapped(Core(s));
    }
  }

  lemma {:induction false} FitEmpty(free: seq<Block>, e: Block, need: nat, i: nat)
    requires i <= |free| && e.size < need
    ensures FirstFit(free + [e], need, i) == if FirstFit(free, need, i) < |free| then FirstFit(free, need, i) else |free| + 1
    decreases |free| - i
  {
    if i < |free| && free[i].size < need {
      FitEmpty(free, e, need, i + 1);
    }
  }

  lemma {:induction false} TakeEmpty(free: seq<Block>, e: Block, i: nat, need: nat)
    requires i < |free| && need <= free[i].size
    ensures Take(free + [e], i, need) == Take(free, i, need) + [e]
  {
    assert (free + [e])[..i] == free[..i] && (free + [e])[i + 1..] == free[i + 1..] + [e];
  }

  lemma {:induction false} AllocateEmpty(s: Space, need: nat)
    requires need > 0 && Fit(WithEmpty(s), need) < |WithEmpty(s).free|
    ensures Fit(s, need) == Fit(WithEmpty(s), need) < |s.free|
    ensures AllocateStep(WithEmpty(s), need) == WithEmpty(AllocateStep(s, need))
  {
    FitEmpty(s.free, Block(s.size, 0), need, 0);
    TakeEmpty(s.free, Block(s.size, 0), Fit(s, need), need);
  }

  lemma {:induction false} TailStaysUsed(s: Space, need: nat)
    requires Inv(s) && need > 0 && Fit(s, need) < |s.free| && !TailFree(s)
    ensures !TailFree(AllocateStep(s, need))
  {
    TakeFree(s.free, Fit(s, need), need, s.size - 1);
  }

  lemma {:induction false} AllocateSound(s: Space, need: nat, a: nat, total: int)
    requires Sound(s, a, total) && need > 0 && Aligned(need, a) && Fit(s, need) < |s.free|
    ensures Sound(AllocateStep(s, need), a, total + need)
    ensures Aligned(s.free[Fit(s, need)].start, a)
  {
    if HasEmpty(s) {
      var t := Core(s);
      CoreOfEmpty(s);
      AllocateEmpty(t, need);
      AllocateGood(t, need, a, total);
      TailStaysUsed(t, need);
      EmptyIsSound(AllocateStep(t, need), a, total + need);
      assert s.free[Fit(s, need)] == t.free[Fit(t, need)];
    } else {
      AllocateGood(s, need, a, total);
      GoodIsSound(AllocateStep(s, need), a, total + need);
    }
  }

  /** The space after a request that can be met; one for nothing takes off an empty block at the front. */
  ghost function Allocated(s: Space, need: nat): Space
    requires Fit(s, need) < |s.free|
  {
    if need > 0 then AllocateStep(s, need) else if s.free[0].size > 0 then s else Core(s)
  }

  lemma {:induction false} FirstIsEmpty(s: Space, a: nat, total: int)
    requires Sound(s, a, total) && s.free != []
    ensures s.free[0].size == 0 ==> HasEmpty(s) && |s.free| == 1
  {
    if HasEmpty(s) && |s.free| > 1 {
      assert Core(s).free[0] == s.free[0];
    }
  }

  lemma {:induction false} NothingAllocated(s: Space, need: nat, a: nat, total: int)
    requires Sound(s, a, total) && Fit(s, need) < |s.free| && need == 0
    ensures Take(s.free, Fit(s, need), need) == Allocated(s, need).free && Allocated(s, need).live == s.live
    ensures Allocated(s, need).size == s.size && Sound(Allocated(s, need), a, total)
  {
    FirstIsEmpty(s, a, total);
    if s.free[0].size > 0 {
      assert s.free == [] + [s.free[0]] + s.free[1..];
    } else {
      GoodIsSound(Core(s), a, total);
    }
  }

  lemma {:induction false} SomeAllocated(s: Space, need: nat, a: nat, total: int)
    requires Sound(s, a, total) && Fit(s, need) < |s.free| && need > 0 && Aligned(need, a)
    ensures Take(s.free, Fit(s, need), need) == Allocated(s, need).free
    ensures Allocated(s, need).size == s.size && Sound(Allocated(s, need), a, total + need)
    ensures Aligned(s.free[Fit(s, need)].start, a)
  {
    AllocateSound(s, need, a, total);
  }

  ghost predicate Allocates(s: Space, need: nat, a: nat, total: int) {
    && Fit(s, need) < |s.free| && Take(s.free, Fit(s, need), need) == Allocated(s, need).free
    && Allocated(s, need).size == s.size && Sound(Allocated(s, need), a, total + need)
    && (need > 0 ==> a > 0 && Aligned(s.free[Fit(s, need)].start, a))
  }

  lemma {:induction false} AllocatesAny(s: Space, need: nat, a: nat, total: int)
    requires Sound(s, a, total) && Fit(s, need) < |s.free| && a > 0 && Aligned(need, a)
    ensures Allocates(s, need, a, total)
  {
    if need > 0 {
      SomeAllocated(s, need, a, total);
    } else {
      NothingAllocated(s, need, a, total);
      assert total + need == total;
    }
  }

  lemma {:induction false} ManySound(s: Space, need: nat, m: nat, a: nat, total: int)
    requires Sound(s, a, total) && need > 0 && Aligned(need, a) && AllocateMany(s, need, m).Some?
    ensures Sound(AllocateMany(s, need, m).value, a, total + Times(m, need))
    decreases m
  {
    if m > 0 {
      ManySound(s, need, m - 1, a, total);
      TimesNext(m - 1, need);
      AllocateSound(AllocateMany(s, need, m - 1).value, need, a, total + Times(m - 1, need));
    } else {
      TimesNext(0, need);
    }
  }

  lemma {:induction false} BisectEmpty(free: seq<Block>, e: Block, x: nat, i: nat)
    requires i <= |free| && x <= e.start
    ensures Bisect(free + [e], x, i) == Bisect(free, x, i)
    decreases |free| - i
  {
    if i < |free| && free[i].start < x {
      BisectEmpty(free, e, x, i + 1);
    }
  }

  /** A block in use in front of an empty one, in a list of free blocks. */
  ghost predicate InFront(free: seq<Block>, e: Block, b: Block) {
    && e.size == 0 && b.start < e.start && b.End() <= e.start
    && (forall i | 0 <= i < |free| :: free[i].End() < e.start)
    && forall i | Bisect(free, b.start, 0) <= i < |free| :: b.End() <= free[i].start
  }

  lemma {:induction false} SamePrev(free: seq<Block>, e: Block, b: Block)
    requires InFront(free, e, b)
    ensures Bisect(free + [e], b.start, 0) == Bisect(free, b.start, 0) && MergesPrev(free + [e], b) == MergesPrev(free, b)
  {
    BisectEmpty(free, e, b.start, 0);
  }

  lemma {:induction false} NoneBehind(free: seq<Block>, e: Block, b: Block)
    requires InFront(free, e, b) && b.End() == e.start
    ensures Bisect(free, b.start, 0) == |free|
  {
  }

  lemma {:induction false} SpliceEnd(free: seq<Block>, e: Block, i: nat, j: nat, mid: seq<Block>)
    requires i <= j <= |free|
    ensures Splice(free + [e], i, j, mid) == Splice(free, i, j, mid) + [e]
  {
    assert (free + [e])[..i] == free[..i] && (free + [e])[j..] == free[j..] + [e];
  }

  lemma {:induction false} SpliceAll(free: seq<Block>, e: Block, i: nat, mid: seq<Block>)
    requires i <= |free|
    ensures Splice(free + [e], i, |free| + 1, mid) == Splice(free, i, |free|, mid)
  {
    assert (free + [e])[..i] == free[..i] && (free + [e])[|free| + 1..] == [] && free[|free|..] == [];
  }

  lemma {:induction false} MergesEmpty(free: seq<Block>, e: Block, b: Block)
    requires InFront(free, e, b) && b.End() == e.start
    ensures MergeLow(free + [e], b) == MergeLow(free, b) && MergeHigh(free + [e], b) == |free| + 1 && MergeHigh(free, b) == |free|
    ensures MergedBlock(free + [e], b) == MergedBlock(free, b)
  {
    SamePrev(free, e, b);
    NoneBehind(free, e, b);
  }

  lemma {:induction false} MergesAlike(free: seq<Block>, e: Block, b: Block)
    requires InFront(free, e, b) && b.End() != e.start
    ensures MergeLow(free + [e], b) == MergeLow(free, b) && MergeHigh(free + [e], b) == MergeHigh(free, b)
    ensures MergedBlock(free + [e], b) == MergedBlock(free, b)
  {
    SamePrev(free, e, b);
    var k := Bisect(free, b.start, 0);
    assert k < |free| ==> (free + [e])[k] == free[k];
    assert MergesNext(free + [e], b) == MergesNext(free, b);
  }

  /** A block that ends where the empty one is takes it in; any other leaves it alone. */
  lemma {:induction false} PutEmpty(free: seq<Block>, e: Block, b: Block)
    requires InFront(free, e, b)
    ensures Put(free + [e], b) == if b.End() == e.start then Put(free, b) else Put(free, b) + [e]
  {
    if b.End() == e.start {
      MergesEmpty(free, e, b);
      SpliceAll(free, e, MergeLow(free, b), [MergedBlock(free, b)]);
    } else {
      MergesAlike(free, e, b);
      SpliceEnd(free, e, MergeLow(free, b), MergeHigh(free, b), [MergedBlock(free, b)]);
    }
  }

  lemma {:induction false} FreeInFront(s: Space, j: nat)
    requires Inv(s) && !TailFree(s) && j < |s.live|
    ensures s.live[j].size > 0 && InFront(s.free, Block(s.size, 0), s.live[j])
  {
    LiveBelow(s, j);
    assert InUse(s.free, s.live[j]);
    UseFits(s.free, s.live[j]);
    forall i | 0 <= i < |s.free|
      ensures s.free[i].End() < s.size
    {
      EndsBelow(s, i);
    }
  }

  lemma {:induction false} FreeEmpty(s: Space, j: nat)
    requires Inv(s) && !TailFree(s) && j < |s.live|
    ensures FreeStep(WithEmpty(s), j) == if s.live[j].End() == s.size then FreeStep(s, j) else WithEmpty(FreeStep(s, j))
  {
    FreeInFront(s, j);
    PutEmpty(s.free, Block(s.size, 0), s.live[j]);
  }

  lemma {:induction false} TailStillUsed(s: Space, j: nat)
    requires Inv(s) && !TailFree(s) && j < |s.live| && s.live[j].End() != s.size
    ensures !TailFree(FreeStep(s, j))
  {
    LiveBelow(s, j);
    PutFree(s.free, s.live[j], s.size - 1);
  }

  lemma {:induction false} FreeSound(s: Space, j: nat, a: nat, total: int)
    requires Sound(s, a, total) && j < |s.live|
    ensures Sound(FreeStep(s, j), a, total - s.live[j].size) && s.live[j].size > 0
  {
    var t, rest := Core(s), total - s.live[j].size;
    FreeGood(t, j, a, total);
    if !HasEmpty(s) || s.live[j].End() == s.size {
      GoodIsSound(FreeStep(t, j), a, rest);
    }
    if HasEmpty(s) {
      CoreOfEmpty(s);
      FreeEmpty(t, j);
      if s.live[j].End() != s.size {
        TailStillUsed(t, j);
        EmptyIsSound(FreeStep(t, j), a, rest);
      }
    }
  }

  lemma {:induction false} GrowSound(s: Space, n: nat, a: nat, total: int)
    requires Sound(s, a, total) && n > 0
    ensures Sound(GrowStep(Core(s), n), a, total)
  {
    GrowGood(Core(s), n, a, total);
    GoodIsSound(GrowStep(Core(s), n), a, total);
  }

  lemma {:induction false} NothingSound(s: Space, n: nat, a: nat, total: int)
    requires Sound(s, a, total) && n == 0
    ensures Sound(GrowStep(Core(s), n), a, total)
  {
    var t := Core(s);
    GrowNothing(t, a, total);
    if TailFree(t) {
      GoodIsSound(t, a, total);
    } else {
      EmptyIsSound(t, a, total);
    }
  }

  lemma {:induction false} SoundTotal(s: Space, a: nat, total: int)
    requires Sound(s, a, total)
    ensures TotalSize(s.free) + total == s.size
  {
    if HasEmpty(s) {
      CoreOfEmpty(s);
      TotalSizeConcat(Core(s).free, [Block(s.size, 0)]);
      TotalSizeOne(Block(s.size, 0));
    }
  }

  /** The space after the single pass for a batch and the update of the list. */
  ghost function Batched(s: Space, need: nat, batch: nat): Space
    requires need > 0
  {
    UsedWithin(s.free, need, batch);
    var n, used := |s.free|, Used(s.free, need, batch);
    var marked, tails := Marked(s.free, used, n), Tails(s.free, used, n);
    Space(s.size, Folded(Added, Folded(Dropped, s.free, marked, |marked|), tails, |tails|), s.live + Found(s.free, need, batch, n))
  }

  lemma {:induction false} BatchedIsMany(s: Space, need: nat, batch: nat)
    requires need > 0 && Gapped(s.free) && batch <= Capacity(s.free, need, |s.free|)
    ensures AllocateMany(s, need, batch) == Some(Batched(s, need, batch))
  {
    ManyIff(s, need, batch);
    UsedWithin(s.free, need, batch);
    UpdatedList(s.free, Used(s.free, need, batch));
  }

  /** What the growing block does to the last block of the list. */
  function Extended(free: seq<Block>, size: nat, n: nat): seq<Block> {
    var last := |free| - 1;
    if free != [] && free[last].End() == size then free[last := Block(free[last].start, free[last].size + n)]
    else free + [Block(size, n)]
  }

  lemma {:induction false} ExtendedIsGrown(s: Space, n: nat, a: nat, total: int)
    requires Sound(s, a, total)
    ensures GrowStep(Core(s), n) == Space(s.size + n, Extended(s.free, s.size, n), s.live)
  {
    var t := Core(s);
    GrowsAtEnd(t);
    MergesTail(t, n);
    if HasEmpty(s) {
      assert Extended(s.free, s.size, n) == t.free + [Block(s.size, n)];
    }
    var k := |t.free|;
    assert t.free[k..] == [];
    if MergesPrev(t.free, Block(t.size, n)) {
      PutPrev(t.free, Block(t.size, n), k);
    } else {
      assert Put(t.free, Block(t.size, n)) == t.free[..k] + [Block(t.size, n)] + t.free[k..];
      assert t.free[..k] == t.free;
    }
  }

  lemma {:induction false} Grown(s: Space, n: nat, a: nat, total: int)
    requires Sound(s, a, total)
    ensures Sound(GrowStep(Core(s), n), a, total)
  {
    if n > 0 {
      GrowSound(s, n, a, total);
    } else {
      NothingSound(s, n, a, total);
    }
  }

  // ---- the four ways to coalesce ----

  lemma {:induction false} PutBoth(free: seq<Block>, b: Block, k: nat)
    requires k == Bisect(free, b.start, 0) && MergesPrev(free, b) && MergesNext(free, b)
    ensures Put(free, b) == Removed(free[k - 1 := Block(free[k - 1].start, free[k - 1].size + (b.size + free[k].size))], k)
  {
  }

  lemma {:induction false} PutPrev(free: seq<Block>, b: Block, k: nat)
    requires k == Bisect(free, b.start, 0) && MergesPrev(free, b) && !MergesNext(free, b)
    ensures Put(free, b) == free[k - 1 := Block(free[k - 1].start, free[k - 1].size + b.size)]
  {
  }

  lemma {:induction false} PutNext(free: seq<Block>, b: Block, k: nat)
    requires Gapped(free) && 0 < b.size && k == Bisect(free, b.start, 0) && !MergesPrev(free, b) && MergesNext(free, b)
    ensures Put(free, b) == Added(Removed(free, k), Block(free[k].start - b.size, free[k].size + b.size))
  {
    Replaced(free, k, Block(free[k].start - b.size, free[k].size + b.size));
  }

  lemma {:induction false} PutNone(free: seq<Block>, b: Block)
    requires !MergesPrev(free, b) && !MergesNext(free, b)
    ensures Put(free, b) == Added(free, b)
  {
  }

  class AddressManager {
    const align: nat
    var size: nat
    var free: seq<Block>
    var totalAllocated: int
    ghost var live: seq<Block>  // the blocks handed out and not yet returned

    ghost function Contents(): Space
      reads this
    {
      Space(size, free, live)
    }

    ghost predicate Valid()
      reads this
    {
      align > 0 && Sound(Contents(), Grain(align), totalAllocated)
    }

    constructor (size: nat, align: nat)
      requires align > 0
      ensures Valid() && Contents() == Fresh(size) && this.align == align
    {
      this.size, this.align := size, align;
      free, totalAllocated, live := [Block(0, size)], 0, [];
      new;
      FreshSound(size, Grain(align));
      assert Contents() == Fresh(size);
    }

    /** The first free block that is large enough. */
    method FindFit(need: nat) returns (i: nat)
      ensures i == Fit(Contents(), need)
    {
      i := 0;
      while i < |free| && free[i].size < need
        invariant i <= |free| && FirstFit(free, need, 0) == FirstFit(free, need, i)
      {
        i := i + 1;
      }
    }

    /** Remove a block from the list and put back what is left of it. */
    method TakeBlock(i: nat, need: nat)
      requires Gapped(free) && i < |free| && need <= free[i].size
      modifies this`free
      ensures free == Take(old(free), i, need)
    {
      var block, rest := free[i], Removed(free, i);
      if block.size > need {
        TakeFront(free, i, need);
        rest := Added(rest, Block(block.start + need, block.size - need));
      } else {
        TakeAll(free, i);
      }
      free := rest;
    }

    /** Take the size from the first free block that can hold it. */
    method TakeFirstFit(need: nat) returns (r: Option<nat>)
      requires Gapped(free)
      modifies this`free, this`totalAllocated
      ensures r.None? <==> Fit(old(Contents()), need) == |old(free)|
      ensures r.None? ==> free == old(free) && totalAllocated == old(totalAllocated)
      ensures r.Some? ==> var i := Fit(old(Contents()), need);
                          && r.value == old(free)[i].start && free == Take(old(free), i, need)
                          && totalAllocated == old(totalAllocated) + need
    {
      var i := FindFit(need);
      if i == |free| {
        return None;
      }
      var block := free[i];
      TakeBlock(i, need);
      totalAllocated := totalAllocated + need;
      r := Some(block.start);
    }

    /**
     Allocate a block; none is returned exactly when no free block can hold the aligned size. A
     request for nothing gets the start of the first free block, and takes an empty one off.
     */
    method Allocate(raw: nat) returns (r: Option<(nat, nat)>)
      requires Valid()
      modifies this`free, this`totalAllocated, this`live
      ensures Valid()
      ensures var need := AlignUp(raw, align);
              && raw <= need < raw + align && Aligned(need, Grain(align))
              && (r.None? <==> Fit(old(Contents()), need) == |old(free)|)
              && (r.None? ==> Contents() == old(Contents()))
              && (r.Some? ==> r.value == (old(free)[Fit(old(Contents()), need)].start, need)
                              && Contents() == Allocated(old(Contents()), need) && (raw > 0 ==> Aligned(r.value.0, Grain(align))))
    {
      AlignUpGrain(raw, align);
      SoundGapped(Contents(), Grain(align), totalAllocated);
      var need: nat := AlignUp(raw, align);
      ghost var s, total := Contents(), totalAllocated;
      var start := TakeFirstFit(need);
      if start.None? {
        return None;
      }
      AllocatesAny(s, need, Grain(align), total);
      live := Allocated(s, need).live;
      assert Contents() == Allocated(s, need);
      r := Some((start.value, need));
    }

    /** Carve as many blocks as are still missing, and can be, out of one free block. */
    method CarveBlock(start: nat, need: nat, num: nat) returns (found: seq<Block>)
      ensures found == Carved(start, need, num)
    {
      found := [];
      for j := 0 to num
        invariant found == Carved(start, need, j)
      {
        found := found + [Block(start + Times(j, need), need)];
      }
    }

    /** The pass over the free list, which it leaves alone. */
    method Carve(need: nat, batch: nat) returns (remaining: nat, found: seq<Block>, remove: seq<Block>, add: seq<Block>)
      requires need > 0
      ensures Pass(remaining, found, remove, add) == PassAt(free, need, batch, |free|)
    {
      remaining, found, remove, add := batch, [], [], [];
      var k := 0;
      while k < |free| && remaining > 0
        invariant k <= |free| && Pass(remaining, found, remove, add) == PassAt(free, need, batch, k)
      {
        NumZeroIff(free, need, batch, k);
        var block := free[k];
        if block.size >= need {
          var num := Min(remaining, block.size / need);
          PassTakes(free, need, batch, k, num);
          var carved := CarveBlock(block.start, need, num);
          found, remaining, remove := found + carved, remaining - num, remove + [block];
          add := add + Remainder(block, Times(num, need));
        } else {
          PassSkips(free, need, batch, k);
        }
        k := k + 1;
      }
      if remaining == 0 {
        RestAlone(free, need, batch, k, |free|);
      }
    }

    /** The free list without the blocks to remove and with the blocks to add. */
    method Replace(remove: seq<Block>, add: seq<Block>) returns (list: seq<Block>)
      ensures list == Folded(Added, Folded(Dropped, free, remove, |remove|), add, |add|)
    {
      list := free;
      for i := 0 to |remove|
        invariant list == Folded(Dropped, free, remove, i)
      {
        list := Dropped(list, remove[i]);
      }
      ghost var dropped := list;
      for i := 0 to |add|
        invariant list == Folded(Added, dropped, add, i)
      {
        list := Added(list, add[i]);
      }
    }

    method AllocateBatch(need: nat, batch: nat) returns (r: Option<seq<Block>>)
      requires Valid() && need > 0 && Aligned(need, Grain(align))
      modifies this`free, this`totalAllocated, this`live
      ensures Valid()
      ensures r.None? <==> Capacity(old(free), need, |old(free)|) < batch
      ensures r.None? ==> Contents() == old(Contents())
      ensures r.Some? ==> |r.value| == batch && AllocateMany(old(Contents()), need, batch) == Some(Contents())
                          && live == old(live) + r.value
    {
      SoundGapped(Contents(), Grain(align), totalAllocated);
      var remaining, found, remove, add := Carve(need, batch);
      if remaining > 0 || |found| != batch {
        return None;
      }
      BatchedIsMany(Contents(), need, batch);
      ManySound(Contents(), need, batch, Grain(align), totalAllocated);
      free := Replace(remove, add);
      totalAllocated := totalAllocated + Times(batch, need);
      live := live + found;
      assert Contents() == Batched(old(Contents()), need, batch);
      r := Some(found);
    }

    /**
     Allocate `batch` blocks of one size, or none: it fails exactly when the free blocks cannot
     hold that many, or for a negative number, and otherwise does what single allocations do.
     Blocks of size zero are refused unless none is asked for.
     */
    method BatchedAllocate(raw: nat, batch: int) returns (r: Option<seq<Block>>)
      requires Valid()
      modifies this`free, this`totalAllocated, this`live
      ensures Valid()
      ensures r.None? ==> Contents() == old(Contents())
      ensures r.Some? ==> |r.value| == batch && live == old(live) + r.value
      ensures raw == 0 ==> (r.None? <==> batch != 0) && Contents() == old(Contents())
      ensures raw > 0 ==> var need := AlignUp(raw, align);
                          && need > 0
                          && (r.None? <==> batch < 0 || Capacity(old(free), need, |old(free)|) < batch)
                          && (r.Some? ==> AllocateMany(old(Contents()), need, batch) == Some(Contents()))
    {
      AlignUpGrain(raw, align);
      var need: nat := AlignUp(raw, align);
      if batch < 0 || (need == 0 && batch > 0) {
        return None;   // the lengths differ, or a division by the size fails
      }
      if need == 0 {
        return Some([]);
      }
      r := AllocateBatch(need, batch);
    }

    /** Merge a block with the free block after it, or insert it. */
    method MergeNextOrAdd(b: Block, k: nat) returns (f: seq<Block>)
      requires Gapped(free) && b.size > 0 && k == Bisect(free, b.start, 0) && !MergesPrev(free, b)
      ensures f == Put(free, b)
    {
      if k < |free| && b.End() == free[k].start {
        PutNext(free, b, k);
        f := Added(Removed(free, k), Block(free[k].start - b.size, free[k].size + b.size));
      } else {
        PutNone(free, b);
        f := Added(free, b);
      }
    }

    /** Merge a block with the free block before it, and with the one after it. */
    method MergePrev(b: Block, k: nat) returns (f: seq<Block>)
      requires k == Bisect(free, b.start, 0) && MergesPrev(free, b)
      ensures f == Put(free, b)
    {
      if k < |free| && b.End() == free[k].start {
        PutBoth(free, b, k);
        f := free[k - 1 := Block(free[k - 1].start, free[k - 1].size + (b.size + free[k].size))];
        f := Removed(f, k);
      } else {
        PutPrev(free, b, k);
        f := free[k - 1 := Block(free[k - 1].start, free[k - 1].size + b.size)];
      }
    }

    /** Merge a block with the free blocks before and after it, or insert it. */
    method Coalesce(b: Block, k: nat) returns (f: seq<Block>)
      requires Gapped(free) && b.size > 0 && k == Bisect(free, b.start, 0)
      ensures f == Put(free, b)
    {
      if k > 0 && free[k - 1].End() == b.start {
        f := MergePrev(b, k);
      } else {
        f := MergeNextOrAdd(b, k);
      }
    }

    method PutBack(b: Block)
      requires Gapped(free) && b.size > 0
      modifies this`free, this`totalAllocated
      ensures free == Put(old(free), b) && totalAllocated == old(totalAllocated) - b.size
    {
      free := Coalesce(b, Bisect(free, b.start, 0));
      totalAllocated := totalAllocated - b.size;
    }

    /** Return a block that was handed out. */
    method Free(address: nat, blockSize: nat, ghost j: nat)
      requires Valid() && j < |live| && live[j] == Block(address, blockSize)
      modifies this`free, this`totalAllocated, this`live
      ensures Valid() && Contents() == FreeStep(old(Contents()), j)
    {
      SoundGapped(Contents(), Grain(align), totalAllocated);
      FreeSound(Contents(), j, Grain(align), totalAllocated);
      PutBack(Block(address, blockSize));
      live := Without(live, j);
      assert Contents() == FreeStep(old(Contents()), j);
    }

    /** Merge the new block with the last one, or add it; there is none behind it. */
    method Extend(n: nat) returns (f: seq<Block>)
      ensures f == Extended(free, size, n)
    {
      if free != [] && free[|free| - 1].End() == size {
        var last := free[|free| - 1];
        f := free[|free| - 1 := Block(last.start, last.size + n)];
      } else {
        f := free + [Block(size, n)];
      }
    }

    /**
     Extend the space at its end. Growth by nothing behind a tail in use leaves an empty block,
     which the next growth or the release of the tail takes in.
     */
    method Sbrk(raw: nat)
      requires Valid()
      modifies this`free, this`size
      ensures Valid()
      ensures var n := AlignUp(raw, align); raw <= n < raw + align && Contents() == GrowStep(Core(old(Contents())), n)
    {
      AlignUpGrain(raw, align);
      var n: nat := AlignUp(raw, align);
      Grown(Contents(), n, Grain(align), totalAllocated);
      ExtendedIsGrown(Contents(), n, Grain(align), totalAllocated);
      free := Extend(n);
      size := size + n;
      assert Contents() == GrowStep(Core(old(Contents())), n);
    }

    method FreeTotal() returns (total: nat)
      ensures total == TotalSize(free)
    {
      total := 0;
      for i := 0 to |free|
        invariant total == TotalSize(free[..i])
      {
        assert free[..i + 1][..i] == free[..i];
        total := total + free[i].size;
      }
      assert free[..|free|] == free;
    }

    /** The self-check never fails. */
    method CheckConsistency() returns (ok: bool)
      requires Valid()
      ensures ok
    {
      SoundGapped(Contents(), Grain(align), totalAllocated);
      SoundTotal(Contents(), Grain(align), totalAllocated);
      var i := 0;
      while i + 1 < |free|
      {
        if free[i].End() == free[i + 1].start {
          return false;
        }
        i := i + 1;
      }
      var total := FreeTotal();
      ok := total + totalAllocated == size;
    }
  }

  lemma {:induction false} TakeAll(free: seq<Block>, i: nat)
    requires i < |free|
    ensures Take(free, i, free[i].size) == Removed(free, i)
  {
  }

  lemma {:induction false} TakeFront(free: seq<Block>, i: nat, need: nat)
    requires Gapped(free) && i < |free| && need < free[i].size
    ensures Take(free, i, need) == Added(Removed(free, i), Block(free[i].start + need, free[i].size - need))
  {
    Replaced(free, i, Block(free[i].start + need, free[i].size - need));
  }
}
