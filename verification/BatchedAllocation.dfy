/**
 Allocation of several blocks of one size in a single pass over the free list, compared with
 allocating them one by one.
 */
module BatchedAllocation {
  import opened Text
  import opened Arithmetic
  import opened AddressSpace

  /** `m` allocations of one size, one after the other; None if one of them fails. */
  function AllocateMany(s: Space, need: nat, m: nat): Option<Space> {
    if m == 0 then Some(s)
    else
      match AllocateMany(s, need, m - 1)
      case None => None
      case Some(t) => if Fit(t, need) < |t.free| then Some(AllocateStep(t, need)) else None
  }

  // ---- the update of the sorted list ----

  ghost predicate Within(free: seq<Block>, used: nat -> nat) {
    forall i: nat | i < |free| :: used(i) <= free[i].size
  }

  /** What is left of a block; one that nothing is taken from stays, even if it is empty. */
  function Piece(b: Block, used: nat): seq<Block>
    requires used <= b.size
  {
    if used == 0 then [b] else Remainder(b, used)
  }

  /** What is left of free block `i`. */
  function Tail(free: seq<Block>, used: nat -> nat, i: nat): seq<Block>
    requires Within(free, used) && i < |free|
  {
    Piece(free[i], used(i))
  }

  /** What is left of the first `k` free blocks. */
  function Left(free: seq<Block>, used: nat -> nat, k: nat): seq<Block>
    requires Within(free, used) && k <= |free|
  {
    if k == 0 then [] else Left(free, used, k - 1) + Tail(free, used, k - 1)
  }

  /** The free blocks that the pass takes something from. */
  function Marked(free: seq<Block>, used: nat -> nat, k: nat): seq<Block>
    requires Within(free, used) && k <= |free|
  {
    if k == 0 then []
    else Marked(free, used, k - 1) + if used(k - 1) > 0 then [free[k - 1]] else []
  }

  /** What is left of them. */
  function Tails(free: seq<Block>, used: nat -> nat, k: nat): seq<Block>
    requires Within(free, used) && k <= |free|
  {
    if k == 0 then []
    else Tails(free, used, k - 1) + if used(k - 1) > 0 then Tail(free, used, k - 1) else []
  }

  function Unmarked(free: seq<Block>, used: nat -> nat, k: nat): seq<Block>
    requires Within(free, used) && k <= |free|
  {
    if k == 0 then []
    else Unmarked(free, used, k - 1) + if used(k - 1) > 0 then [] else [free[k - 1]]
  }

  function UnmarkedFrom(free: seq<Block>, used: nat -> nat, k: nat): seq<Block>
    requires Within(free, used) && k <= |free|
    decreases |free| - k
  {
    if k == |free| then []
    else (if used(k) > 0 then [] else [free[k]]) + UnmarkedFrom(free, used, k + 1)
  }

  /** A block removed from the sorted list, where its start says it is. */
  function Dropped(list: seq<Block>, b: Block): seq<Block> {
    var k := Bisect(list, b.start, 0);
    if k < |list| then Removed(list, k) else list
  }

  /** A change of the list for each of the first `i` blocks. */
  function Folded(change: (seq<Block>, Block) -> seq<Block>, list: seq<Block>, bs: seq<Block>, i: nat): seq<Block>
    requires i <= |bs|
  {
    if i == 0 then list else change(Folded(change, list, bs, i - 1), bs[i - 1])
  }

  lemma {:induction false} FoldedPrefix(change: (seq<Block>, Block) -> seq<Block>, list: seq<Block>, bs: seq<Block>, more: seq<Block>, i: nat)
    requires i <= |bs|
    ensures Folded(change, list, bs + more, i) == Folded(change, list, bs, i)
    decreases i
  {
    if i > 0 {
      FoldedPrefix(change, list, bs, more, i - 1);
    }
  }

  lemma {:induction false} FoldedNext(change: (seq<Block>, Block) -> seq<Block>, list: seq<Block>, bs: seq<Block>, b: Block)
    ensures Folded(change, list, bs + [b], |bs + [b]|) == change(Folded(change, list, bs, |bs|), b)
  {
    FoldedPrefix(change, list, bs, [b], |bs|);
  }

  predicate Below(list: seq<Block>, x: nat) {
    forall i | 0 <= i < |list| :: list[i].start < x
  }

  predicate AtOrAbove(list: seq<Block>, x: nat) {
    forall i | 0 <= i < |list| :: list[i].start >= x
  }

  lemma {:induction false} UnmarkedBelow(free: seq<Block>, used: nat -> nat, k: nat, j: nat)
    requires Within(free, used) && k <= j < |free| && Gapped(free)
    ensures Below(Unmarked(free, used, k), free[j].start)
    decreases k
  {
    if k > 0 {
      UnmarkedBelow(free, used, k - 1, j);
    }
  }

  lemma {:induction false} LeftBelow(free: seq<Block>, used: nat -> nat, k: nat, j: nat)
    requires Within(free, used) && k <= j < |free| && Gapped(free)
    ensures Below(Left(free, used, k), free[j].start)
    decreases k
  {
    if k > 0 {
      LeftBelow(free, used, k - 1, j);
      assert free[k - 1].End() < free[j].start;
    }
  }

  lemma {:induction false} UnmarkedAbove(free: seq<Block>, used: nat -> nat, k: nat, x: nat)
    requires Within(free, used) && k <= |free| && forall j | k <= j < |free| :: free[j].start >= x
    ensures AtOrAbove(UnmarkedFrom(free, used, k), x)
    decreases |free| - k
  {
    if k < |free| {
      UnmarkedAbove(free, used, k + 1, x);
    }
  }

  lemma {:induction false} BisectBetween(a: seq<Block>, b: seq<Block>, x: nat)
    requires Below(a, x) && AtOrAbove(b, x)
    ensures Bisect(a + b, x, 0) == |a|
  {
    BisectAt(a + b, x, 0, |a|);
  }

  lemma {:induction false} DropNext(a: seq<Block>, b: Block, rest: seq<Block>)
    requires Below(a, b.start)
    ensures Dropped(a + ([b] + rest), b) == a + rest
  {
    var list := a + ([b] + rest);
    BisectAt(list, b.start, 0, |a|);
    assert list[..|a|] == a && list[|a| + 1..] == rest;
  }

  lemma {:induction false} AddNext(a: seq<Block>, b: Block, rest: seq<Block>)
    requires Below(a, b.start) && AtOrAbove(rest, b.start)
    ensures Added(a + rest, b) == a + [b] + rest
  {
    BisectBetween(a, rest, b.start);
    assert (a + rest)[..|a|] == a && (a + rest)[|a|..] == rest;
  }

  /** Dropping block `i`, if it is marked, when all before it have been dealt with. */
  ghost predicate DropsAt(change: (seq<Block>, Block) -> seq<Block>, free: seq<Block>, used: nat -> nat, i: nat)
    requires Within(free, used) && i < |free|
  {
    var list, list' := Unmarked(free, used, i) + free[i..], Unmarked(free, used, i + 1) + free[i + 1..];
    list' == if used(i) > 0 then change(list, free[i]) else list
  }

  lemma {:induction false} DropsMarked(free: seq<Block>, used: nat -> nat, i: nat)
    requires Within(free, used) && i < |free| && Gapped(free)
    ensures DropsAt(Dropped, free, used, i)
  {
    var u := Unmarked(free, used, i);
    assert free[i..] == [free[i]] + free[i + 1..];
    if used(i) > 0 {
      assert Unmarked(free, used, i + 1) == u + [] == u;
      UnmarkedBelow(free, used, i, i);
      DropNext(u, free[i], free[i + 1..]);
    } else {
      ConcatAssoc(u, [free[i]], free[i + 1..]);
    }
  }

  lemma {:induction false} MarkedDropped(change: (seq<Block>, Block) -> seq<Block>, free: seq<Block>, used: nat -> nat, k: nat)
    requires Within(free, used) && k <= |free| && forall i | 0 <= i < |free| :: DropsAt(change, free, used, i)
    ensures Folded(change, free, Marked(free, used, k), |Marked(free, used, k)|) == Unmarked(free, used, k) + free[k..]
    decreases k
  {
    if k == 0 {
      assert [] + free[0..] == free;
    } else {
      MarkedDropped(change, free, used, k - 1);
      assert DropsAt(change, free, used, k - 1);
      MarkedNext(change, free, used, k);
    }
  }

  lemma {:induction false} MarkedNext(change: (seq<Block>, Block) -> seq<Block>, free: seq<Block>, used: nat -> nat, k: nat)
    requires Within(free, used) && 0 < k <= |free|
    ensures var list := Folded(change, free, Marked(free, used, k - 1), |Marked(free, used, k - 1)|);
            Folded(change, free, Marked(free, used, k), |Marked(free, used, k)|)
            == if used(k - 1) > 0 then change(list, free[k - 1]) else list
  {
    var marked := Marked(free, used, k - 1);
    if used(k - 1) > 0 {
      FoldedNext(change, free, marked, free[k - 1]);
    } else {
      assert Marked(free, used, k) == marked + [] == marked;
    }
  }

  lemma {:induction false} UnmarkedSplit(free: seq<Block>, used: nat -> nat, k: nat)
    requires Within(free, used) && k <= |free|
    ensures Unmarked(free, used, k) + UnmarkedFrom(free, used, k) == UnmarkedFrom(free, used, 0)
    decreases k
  {
    if k > 0 {
      UnmarkedSplit(free, used, k - 1);
    }
  }

  lemma {:induction false} AddTail(free: seq<Block>, used: nat -> nat, i: nat)
    requires Within(free, used) && i < |free| && Gapped(free) && Tail(free, used, i) != []
    ensures var l, u, t := Left(free, used, i), UnmarkedFrom(free, used, i + 1), Tail(free, used, i);
            Added(l + u, t[0]) == l + t + u
  {
    var l, u, t := Left(free, used, i), UnmarkedFrom(free, used, i + 1), Tail(free, used, i);
    LeftBelow(free, used, i, i);
    UnmarkedAbove(free, used, i + 1, t[0].start);
    AddNext(l, t[0], u);
  }

  lemma {:induction false} TailsAdded(free: seq<Block>, used: nat -> nat)
    requires Within(free, used) && Gapped(free)
    ensures AddedTo(free, used, |free|, UnmarkedFrom(free, used, 0))
  {
    var all := UnmarkedFrom(free, used, 0);
    var p := (k: nat) => k <= |free| && AddedTo(free, used, k, all);
    NoneAdded(free, used, all);
    forall i: nat | i < |free|
      ensures PassesOn(p, i)
    {
      if p(i) {
        AddedNext(free, used, i, all);
      }
    }
    Induct(p, |free|);
  }

  lemma {:induction false} NoneAdded(free: seq<Block>, used: nat -> nat, all: seq<Block>)
    requires Within(free, used) && all == UnmarkedFrom(free, used, 0)
    ensures AddedTo(free, used, 0, all)
  {
    assert [] + all == all;
  }

  lemma {:induction false} AddedNext(free: seq<Block>, used: nat -> nat, i: nat, all: seq<Block>)
    requires Within(free, used) && i < |free| && Gapped(free) && AddedTo(free, used, i, all)
    ensures AddedTo(free, used, i + 1, all)
  {
    var t := Tail(free, used, i);
    if used(i) == 0 {
      UnusedKept(free, used, i, all);
    } else if t == [] {
      UsedUp(free, used, i, all);
    } else {
      TailAdded(free, used, i, all, t[0]);
    }
  }

  /** The list after the blocks up to `i` have been dealt with. */
  ghost predicate AddedTo(free: seq<Block>, used: nat -> nat, i: nat, all: seq<Block>)
    requires Within(free, used) && i <= |free|
  {
    Folded(Added, all, Tails(free, used, i), |Tails(free, used, i)|) == Left(free, used, i) + UnmarkedFrom(free, used, i)
  }

  lemma {:induction false} UnusedKept(free: seq<Block>, used: nat -> nat, i: nat, all: seq<Block>)
    requires Within(free, used) && i < |free| && Gapped(free) && used(i) == 0 && AddedTo(free, used, i, all)
    ensures AddedTo(free, used, i + 1, all)
  {
    assert Tails(free, used, i + 1) == Tails(free, used, i) + [] == Tails(free, used, i);
    ConcatAssoc(Left(free, used, i), Tail(free, used, i), UnmarkedFrom(free, used, i + 1));
  }

  lemma {:induction false} UsedUp(free: seq<Block>, used: nat -> nat, i: nat, all: seq<Block>)
    requires Within(free, used) && i < |free| && used(i) > 0 && Tail(free, used, i) == [] && AddedTo(free, used, i, all)
    ensures AddedTo(free, used, i + 1, all)
  {
    assert Tails(free, used, i + 1) == Tails(free, used, i) + [] == Tails(free, used, i);
    assert Left(free, used, i + 1) == Left(free, used, i) + [] == Left(free, used, i);
    assert UnmarkedFrom(free, used, i) == [] + UnmarkedFrom(free, used, i + 1) == UnmarkedFrom(free, used, i + 1);
  }

  lemma {:induction false} TailAdded(free: seq<Block>, used: nat -> nat, i: nat, all: seq<Block>, t: Block)
    requires Within(free, used) && i < |free| && Gapped(free) && used(i) > 0 && Tail(free, used, i) == [t]
    requires AddedTo(free, used, i, all)
    ensures AddedTo(free, used, i + 1, all)
  {
    assert Tails(free, used, i + 1) == Tails(free, used, i) + [t];
    assert Left(free, used, i + 1) == Left(free, used, i) + [t];
    assert UnmarkedFrom(free, used, i) == [] + UnmarkedFrom(free, used, i + 1) == UnmarkedFrom(free, used, i + 1);
    FoldedNext(Added, all, Tails(free, used, i), t);
    AddTail(free, used, i);
  }

  /** Removing the blocks used and then adding what is left of them gives the list that the pass leaves. */
  lemma {:induction false} UpdatedList(free: seq<Block>, used: nat -> nat)
    requires Within(free, used) && Gapped(free)
    ensures var n := |free|;
            var marked, tails := Marked(free, used, n), Tails(free, used, n);
            Folded(Added, Folded(Dropped, free, marked, |marked|), tails, |tails|) == Left(free, used, n)
  {
    var n := |free|;
    forall i | 0 <= i < n
      ensures DropsAt(Dropped, free, used, i)
    {
      DropsMarked(free, used, i);
    }
    MarkedDropped(Dropped, free, used, n);
    UnmarkedSplit(free, used, n);
    TailsAdded(free, used);
    assert Unmarked(free, used, n) + free[n..] == Unmarked(free, used, n) + UnmarkedFrom(free, used, n);
  }

  // ---- the pass over the free list ----

  /** How many blocks of size `need` the first `k` free blocks can hold. */
  function Capacity(free: seq<Block>, need: nat, k: nat): nat
    requires need > 0 && k <= |free|
  {
    if k == 0 then 0 else Capacity(free, need, k - 1) + free[k - 1].size / need
  }

  /** How many of `batch` blocks the pass has found in the first `k` free blocks. */
  function Given(free: seq<Block>, need: nat, batch: nat, k: nat): nat
    requires need > 0 && k <= |free|
  {
    Min(batch, Capacity(free, need, k))
  }

  /** How many blocks the pass carves out of free block `i`. */
  function Num(free: seq<Block>, need: nat, batch: nat, i: nat): (n: nat)
    requires need > 0 && i < |free|
    ensures n == Min(batch - Given(free, need, batch, i), free[i].size / need)
  {
    Given(free, need, batch, i + 1) - Given(free, need, batch, i)
  }

  lemma {:induction false} Quotient(x: nat, need: nat)
    requires need > 0
    ensures Times(x / need, need) <= x < Times(x / need, need) + need
  {
  }

  lemma {:induction false} NumFits(free: seq<Block>, need: nat, batch: nat, i: nat)
    requires need > 0 && i < |free|
    ensures Times(Num(free, need, batch, i), need) <= free[i].size
  {
    Quotient(free[i].size, need);
    TimesGrows(Num(free, need, batch, i), free[i].size / need, need);
  }

  /** How much the pass takes from each free block. */
  function Used(free: seq<Block>, need: nat, batch: nat): nat -> nat
    requires need > 0
  {
    (i: nat) => if i < |free| then Times(Num(free, need, batch, i), need) else 0
  }

  lemma {:induction false} UsedWithin(free: seq<Block>, need: nat, batch: nat)
    requires need > 0
    ensures Within(free, Used(free, need, batch))
  {
    forall i: nat | i < |free|
      ensures Used(free, need, batch)(i) <= free[i].size
    {
      NumFits(free, need, batch, i);
    }
  }

  /** The free list that the pass leaves of the first `k` blocks. */
  function Passed(free: seq<Block>, need: nat, batch: nat, k: nat): seq<Block>
    requires need > 0 && k <= |free|
  {
    UsedWithin(free, need, batch);
    Left(free, Used(free, need, batch), k)
  }

  /** `j` blocks in a row. */
  function Carved(start: nat, need: nat, j: nat): (r: seq<Block>)
    ensures |r| == j
  {
    if j == 0 then [] else Carved(start, need, j - 1) + [Block(start + Times(j - 1, need), need)]
  }

  /** The blocks carved out of the first `k` free blocks. */
  function Found(free: seq<Block>, need: nat, batch: nat, k: nat): (r: seq<Block>)
    requires need > 0 && k <= |free|
    ensures |r| == Given(free, need, batch, k)
  {
    if k == 0 then []
    else Found(free, need, batch, k - 1) + Carved(free[k - 1].start, need, Num(free, need, batch, k - 1))
  }

  // ---- the pass does what single allocations do ----

  predicate Small(blocks: seq<Block>, need: nat) {
    forall i | 0 <= i < |blocks| :: blocks[i].size < need
  }

  lemma {:induction false} FirstFitAt(free: seq<Block>, need: nat, i: nat, k: nat)
    requires i <= k < |free| && free[k].size >= need && forall j | i <= j < k :: free[j].size < need
    ensures FirstFit(free, need, i) == k
    decreases k - i
  {
    if i < k {
      FirstFitAt(free, need, i + 1, k);
    }
  }

  /** First fit passes the leftovers and takes the next piece of the block being carved. */
  lemma {:induction false} TakePiece(left: seq<Block>, b: Block, used: nat, rest: seq<Block>, need: nat)
    requires need > 0 && Small(left, need) && used + need <= b.size
    ensures var f := left + Piece(b, used) + rest;
            && FirstFit(f, need, 0) == |left| < |f| && f[|left|] == Block(b.start + used, b.size - used)
            && Take(f, |left|, need) == left + Piece(b, used + need) + rest
  {
    var f := left + Piece(b, used) + rest;
    FirstFitAt(f, need, 0, |left|);
    assert f[..|left|] == left && f[|left| + 1..] == rest;
  }

  /** As long as blocks are missing, everything passed has been used up. */
  lemma {:induction false} LeftSmall(free: seq<Block>, need: nat, batch: nat, k: nat)
    requires need > 0 && k <= |free| && Capacity(free, need, k) < batch
    ensures Small(Passed(free, need, batch, k), need)
    decreases k
  {
    if k > 0 {
      LeftSmall(free, need, batch, k - 1);
      assert Num(free, need, batch, k - 1) == free[k - 1].size / need;
      Quotient(free[k - 1].size, need);
    }
  }

  /** The single allocations have the given free list and new blocks after `m` of them. */
  predicate Reaches(s: Space, need: nat, m: nat, free: seq<Block>, found: seq<Block>) {
    AllocateMany(s, need, m) == Some(Space(s.size, free, s.live + found))
  }

  lemma {:induction false} ReachesNext(s: Space, need: nat, m: nat, left: seq<Block>, b: Block, used: nat, rest: seq<Block>, found: seq<Block>)
    requires need > 0 && Small(left, need) && used + need <= b.size
    requires Reaches(s, need, m, left + Piece(b, used) + rest, found)
    ensures Reaches(s, need, m + 1, left + Piece(b, used + need) + rest, found + [Block(b.start + used, need)])
  {
    TakePiece(left, b, used, rest, need);
    assert s.live + found + [Block(b.start + used, need)] == s.live + (found + [Block(b.start + used, need)]);
  }

  /** What the single allocations reach after the first `k` free blocks and `j` pieces of the next one. */
  ghost predicate ReachesAt(s: Space, need: nat, batch: nat, k: nat, j: nat)
    requires need > 0 && k < |s.free|
  {
    && Times(j, need) <= s.free[k].size
    && Reaches(s, need, Given(s.free, need, batch, k) + j,
               Passed(s.free, need, batch, k) + Piece(s.free[k], Times(j, need)) + s.free[k + 1..],
               Found(s.free, need, batch, k) + Carved(s.free[k].start, need, j))
  }

  lemma {:induction false} PieceFits(free: seq<Block>, need: nat, batch: nat, k: nat, j: nat)
    requires need > 0 && k < |free| && j < Num(free, need, batch, k)
    ensures Times(j + 1, need) == Times(j, need) + need <= free[k].size && Small(Passed(free, need, batch, k), need)
  {
    NumFits(free, need, batch, k);
    TimesGrows(j + 1, Num(free, need, batch, k), need);
    TimesNext(j, need);
    LeftSmall(free, need, batch, k);
  }

  lemma {:induction false} PieceReached(s: Space, need: nat, batch: nat, k: nat, j: nat)
    requires need > 0 && k < |s.free| && ReachesAt(s, need, batch, k, j)
    requires Times(j + 1, need) == Times(j, need) + need <= s.free[k].size && Small(Passed(s.free, need, batch, k), need)
    ensures ReachesAt(s, need, batch, k, j + 1)
  {
    var found, c := Found(s.free, need, batch, k), Carved(s.free[k].start, need, j);
    ReachesNext(s, need, Given(s.free, need, batch, k) + j, Passed(s.free, need, batch, k), s.free[k], Times(j, need), s.free[k + 1..], found + c);
    ConcatAssoc(found, c, [Block(s.free[k].start + Times(j, need), need)]);
  }

  lemma {:induction false} NoPieceYet(s: Space, need: nat, batch: nat, k: nat, j: nat)
    requires need > 0 && k < |s.free| && j == 0
    requires Reaches(s, need, Given(s.free, need, batch, k), Passed(s.free, need, batch, k) + s.free[k..], Found(s.free, need, batch, k))
    ensures ReachesAt(s, need, batch, k, j)
  {
    TimesNext(0, need);
    assert s.free[k..] == [s.free[k]] + s.free[k + 1..];
    ConcatAssoc(Passed(s.free, need, batch, k), [s.free[k]], s.free[k + 1..]);
    assert Found(s.free, need, batch, k) + [] == Found(s.free, need, batch, k);
  }

  lemma {:induction false} ReachesPiece(s: Space, need: nat, batch: nat, k: nat, j: nat)
    requires need > 0 && k < |s.free| && j <= Num(s.free, need, batch, k) && Gapped(s.free)
    ensures ReachesAt(s, need, batch, k, j)
    decreases k, 1, j
  {
    if j > 0 {
      ReachesPiece(s, need, batch, k, j - 1);
      PieceFits(s.free, need, batch, k, j - 1);
      PieceReached(s, need, batch, k, j - 1);
    } else {
      ReachesBlock(s, need, batch, k);
      NoPieceYet(s, need, batch, k, j);
    }
  }

  lemma {:induction false} PassedNext(free: seq<Block>, need: nat, batch: nat, k: nat, n: nat)
    requires need > 0 && 0 < k <= |free| && n == Num(free, need, batch, k - 1)
    ensures Times(n, need) <= free[k - 1].size
    ensures Passed(free, need, batch, k) == Passed(free, need, batch, k - 1) + Piece(free[k - 1], Times(n, need))
    ensures Found(free, need, batch, k) == Found(free, need, batch, k - 1) + Carved(free[k - 1].start, need, n)
    ensures Given(free, need, batch, k) == Given(free, need, batch, k - 1) + n
  {
    NumFits(free, need, batch, k - 1);
  }

  lemma {:induction false} BlockReached(s: Space, need: nat, batch: nat, k: nat, n: nat)
    requires need > 0 && 0 < k <= |s.free| && n == Num(s.free, need, batch, k - 1) && ReachesAt(s, need, batch, k - 1, n)
    ensures Reaches(s, need, Given(s.free, need, batch, k), Passed(s.free, need, batch, k) + s.free[k..], Found(s.free, need, batch, k))
  {
    PassedNext(s.free, need, batch, k, n);
    assert s.free[k - 1 + 1..] == s.free[k..];
  }

  /** After the first `k` free blocks. */
  lemma {:induction false} ReachesBlock(s: Space, need: nat, batch: nat, k: nat)
    requires need > 0 && k <= |s.free| && Gapped(s.free)
    ensures Reaches(s, need, Given(s.free, need, batch, k), Passed(s.free, need, batch, k) + s.free[k..], Found(s.free, need, batch, k))
    decreases k, 0, 0
  {
    if k > 0 {
      ReachesPiece(s, need, batch, k - 1, Num(s.free, need, batch, k - 1));
      BlockReached(s, need, batch, k, Num(s.free, need, batch, k - 1));
    } else {
      NothingReached(s, need, batch);
    }
  }

  lemma {:induction false} NothingReached(s: Space, need: nat, batch: nat)
    requires need > 0
    ensures Reaches(s, need, Given(s.free, need, batch, 0), Passed(s.free, need, batch, 0) + s.free[0..], Found(s.free, need, batch, 0))
  {
    assert Given(s.free, need, batch, 0) == 0;
    assert s.live + [] == s.live;
    assert [] + s.free[0..] == s.free;
  }

  lemma {:induction false} StaysNone(s: Space, need: nat, m: nat, n: nat)
    requires m <= n && AllocateMany(s, need, m).None?
    ensures AllocateMany(s, need, n).None?
    decreases n
  {
    if m < n {
      StaysNone(s, need, m, n - 1);
    }
  }

  lemma {:induction false} NoneFits(blocks: seq<Block>, need: nat)
    requires Small(blocks, need)
    ensures FirstFit(blocks, need, 0) == |blocks|
  {
  }

  /**
   Single allocations succeed `batch` times exactly when the free blocks can hold that many,
   and then leave the free list and the blocks of the single pass.
   */
  lemma {:induction false} ManyIff(s: Space, need: nat, batch: nat)
    requires need > 0 && Gapped(s.free)
    ensures AllocateMany(s, need, batch).Some? <==> batch <= Capacity(s.free, need, |s.free|)
    ensures AllocateMany(s, need, batch).Some?
            ==> Reaches(s, need, batch, Passed(s.free, need, batch, |s.free|), Found(s.free, need, batch, |s.free|))
  {
    var n := |s.free|;
    ReachesBlock(s, need, batch, n);
    assert Passed(s.free, need, batch, n) + s.free[n..] == Passed(s.free, need, batch, n);
    if Capacity(s.free, need, n) < batch {
      LeftSmall(s.free, need, batch, n);
      NoneFits(Passed(s.free, need, batch, n), need);
      StaysNone(s, need, Capacity(s.free, need, n) + 1, batch);
    }
  }

  // ---- one block of the pass ----

  /** How many blocks are missing, those found, and the changes of the list noted so far. */
  datatype Pass = Pass(remaining: nat, found: seq<Block>, remove: seq<Block>, add: seq<Block>)

  ghost function PassAt(free: seq<Block>, need: nat, batch: nat, k: nat): Pass
    requires need > 0 && k <= |free|
  {
    UsedWithin(free, need, batch);
    var used := Used(free, need, batch);
    Pass(batch - Given(free, need, batch, k), Found(free, need, batch, k), Marked(free, used, k), Tails(free, used, k))
  }

  lemma {:induction false} PassSkips(free: seq<Block>, need: nat, batch: nat, k: nat)
    requires need > 0 && k < |free| && Num(free, need, batch, k) == 0
    ensures PassAt(free, need, batch, k + 1) == PassAt(free, need, batch, k)
  {
    TimesNext(0, need);
    UsedWithin(free, need, batch);
    var used := Used(free, need, batch);
    assert used(k) == 0;
    NothingFound(Found(free, need, batch, k), free[k].start, need);
    assert Marked(free, used, k) + [] == Marked(free, used, k) && Tails(free, used, k) + [] == Tails(free, used, k);
  }

  lemma {:induction false} NothingFound(found: seq<Block>, start: nat, need: nat)
    ensures found + Carved(start, need, 0) == found
  {
  }

  lemma {:induction false} PassTakes(free: seq<Block>, need: nat, batch: nat, k: nat, n: nat)
    requires need > 0 && k < |free| && n == Num(free, need, batch, k) > 0
    ensures Times(n, need) <= free[k].size
    ensures var q := PassAt(free, need, batch, k);
            PassAt(free, need, batch, k + 1)
            == Pass(q.remaining - n, q.found + Carved(free[k].start, need, n), q.remove + [free[k]], q.add + Remainder(free[k], Times(n, need)))
  {
    NumFits(free, need, batch, k);
    TimesGrows(1, n, need);
    TimesNext(0, need);
    UsedWithin(free, need, batch);
  }

  lemma {:induction false} NumZeroIff(free: seq<Block>, need: nat, batch: nat, k: nat)
    requires need > 0 && k < |free| && Given(free, need, batch, k) < batch
    ensures Num(free, need, batch, k) == 0 <==> free[k].size < need
  {
    Quotient(free[k].size, need);
    TimesNext(0, need);
    if free[k].size / need > 0 {
      TimesGrows(1, free[k].size / need, need);
    }
  }

  /** Once all blocks are found, the rest of the list is left alone. */
  lemma {:induction false} RestAlone(free: seq<Block>, need: nat, batch: nat, k: nat, n: nat)
    requires need > 0 && k <= n <= |free| && PassAt(free, need, batch, k).remaining == 0
    ensures PassAt(free, need, batch, n) == PassAt(free, need, batch, k)
    decreases n
  {
    if k < n {
      RestAlone(free, need, batch, k, n - 1);
      PassSkips(free, need, batch, n - 1);
    }
  }
}
