/**
 The exporter that streams one attention matrix into a raw file: blocks of query rows arrive in
 any order and are written, head by head, at their final byte offsets.
 */
module AttentionExport {
  import opened Text
  import opened Arithmetic

  datatype Dtype = BFloat16 | Float16 | Float32 | OtherType

  function ElementSize(d: Dtype): nat {
    match d
    case Float32 => 4
    case _ => 2
  }

  /** A block of query rows; `row(h, i)` holds the bytes of row `i` of head `h`, as they are stored. */
  datatype Block = Block(heads: nat, start: int, count: nat, keys: nat, dtype: Dtype, row: (nat, nat) -> seq<int>)
  {
    predicate HasQuery(q: int) {
      start <= q < start + count
    }
  }

  // ---- offsets ----

  /** A place within row `m` lies in the stretch of rows `a` to `b` exactly when the row does. */
  lemma {:induction false} InRows(m: nat, x: nat, a: nat, b: nat, size: nat)
    requires x < size
    ensures Times(a, size) <= Times(m, size) + x < Times(b, size) <==> a <= m < b
  {
    TimesNext(m, size);
    if a <= m {
      TimesGrows(a, m, size);
    } else {
      TimesGrows(m + 1, a, size);
    }
    if m < b {
      TimesGrows(m + 1, b, size);
    } else {
      TimesGrows(b, m, size);
    }
  }

  /** Where the matrix has row `q` of head `h`. */
  function RowIndex(h: nat, q: nat, n: nat): nat {
    Times(h, n) + q
  }

  lemma {:induction false} RowIndexIn(h: nat, q: nat, g: nat, a: nat, b: nat, n: nat)
    requires q < n && a <= b <= n
    ensures RowIndex(g, a, n) <= RowIndex(h, q, n) < RowIndex(g, b, n) <==> h == g && a <= q < b
  {
    TimesNext(h, n);
    TimesNext(g, n);
    if h < g {
      TimesGrows(h + 1, g, n);
    } else if g < h {
      TimesGrows(g + 1, h, n);
    }
  }

  /** The offset of byte `x` of row `q` of head `h`, for rows of `size` bytes. */
  function Offset(h: nat, q: nat, x: nat, n: nat, size: nat): nat {
    Times(RowIndex(h, q, n), size) + x
  }

  lemma {:induction false} OffsetIn(h: nat, q: nat, x: nat, g: nat, a: nat, b: nat, n: nat, size: nat)
    requires q < n && x < size && a <= b <= n
    ensures Offset(g, a, 0, n, size) <= Offset(h, q, x, n, size) < Offset(g, b, 0, n, size) <==> h == g && a <= q < b
  {
    InRows(RowIndex(h, q, n), x, RowIndex(g, a, n), RowIndex(g, b, n), size);
    RowIndexIn(h, q, g, a, b, n);
  }

  lemma {:induction false} OffsetFits(h: nat, q: nat, x: nat, heads: nat, n: nat, size: nat)
    requires h < heads && q < n && x < size
    ensures Offset(h, q, x, n, size) < Times(Times(heads, n), size)
  {
    TimesNext(h, n);
    TimesGrows(h + 1, heads, n);
    InRows(RowIndex(h, q, n), x, 0, Times(heads, n), size);
    TimesNext(0, size);
  }

  /** The offset as the row-major layout has it: by head, query, key and byte of the element. */
  lemma {:induction false} OffsetRowMajor(h: nat, q: nat, k: nat, j: nat, n: nat, e: nat)
    ensures Offset(h, q, k * e + j, n, n * e) == ((h * n + q) * n + k) * e + j
  {
    var r := h * n + q;
    Regroup(r, n, k, e);
  }

  lemma {:induction false} Regroup(r: nat, n: nat, k: nat, e: nat)
    ensures r * (n * e) + k * e == (r * n + k) * e
  {
    var rn := r * n;
    assert r * (n * e) == rn * e;
    assert (rn + k) * e == rn * e + k * e;
  }

  /** The offset that the writer computes is the start of the block's first row. */
  lemma {:induction false} WriterOffset(h: nat, start: nat, n: nat, e: nat)
    ensures (h * n * n + start * n) * e == Offset(h, start, 0, n, n * e)
  {
    var hn := h * n;
    assert hn * n + start * n == (hn + start) * n;
    var r := hn + start;
    assert r * n * e == r * (n * e);
  }

  // ---- writing ----

  function Splice(file: seq<int>, at: nat, bytes: seq<int>): seq<int>
    requires at + |bytes| <= |file|
  {
    file[..at] + bytes + file[at + |bytes|..]
  }

  lemma {:induction false} SpliceAt(file: seq<int>, at: nat, bytes: seq<int>, p: nat)
    requires at + |bytes| <= |file| && p < |file|
    ensures |Splice(file, at, bytes)| == |file|
    ensures Splice(file, at, bytes)[p] == if at <= p < at + |bytes| then bytes[p - at] else file[p]
  {
  }

  /** The rows of the block have the length that the stored type gives them. */
  predicate Sized(b: Block, size: nat) {
    forall h: nat, i: nat | h < b.heads && i < b.count :: |b.row(h, i)| == size
  }

  /** The bytes of the first `i` rows of head `h`. */
  function HeadBytes(b: Block, h: nat, i: nat): seq<int> {
    if i == 0 then [] else HeadBytes(b, h, i - 1) + b.row(h, i - 1)
  }

  lemma {:induction false} HeadBytesAt(b: Block, h: nat, i: nat, size: nat)
    requires Sized(b, size) && h < b.heads && i <= b.count
    ensures |HeadBytes(b, h, i)| == Times(i, size)
    decreases i
  {
    TimesNext(0, size);
    if i > 0 {
      HeadBytesAt(b, h, i - 1, size);
      TimesNext(i - 1, size);
    }
  }

  lemma {:induction false} HeadByte(b: Block, h: nat, i: nat, size: nat, r: nat, x: nat)
    requires Sized(b, size) && h < b.heads && r < i <= b.count && x < size
    ensures Times(r, size) + x < |HeadBytes(b, h, i)| && HeadBytes(b, h, i)[Times(r, size) + x] == b.row(h, r)[x]
    decreases i
  {
    HeadBytesAt(b, h, i, size);
    HeadBytesAt(b, h, i - 1, size);
    TimesNext(r, size);
    TimesGrows(r + 1, i, size);
    if r < i - 1 {
      HeadByte(b, h, i - 1, size, r, x);
    }
  }

  /** A block that fits the matrix of `heads` heads and `n` tokens. */
  predicate Fits(b: Block, heads: nat, n: nat, size: nat) {
    b.heads == heads && b.start >= 0 && b.start + b.count <= n && b.keys == n && Sized(b, size)
  }

  lemma {:induction false} HeadFits(b: Block, heads: nat, n: nat, size: nat, h: nat)
    requires Fits(b, heads, n, size) && h < heads
    ensures |HeadBytes(b, h, b.count)| == Times(b.count, size)
    ensures Offset(h, b.start, 0, n, size) + Times(b.count, size) == Offset(h, b.start + b.count, 0, n, size)
    ensures Offset(h, b.start + b.count, 0, n, size) <= Times(Times(heads, n), size)
  {
    HeadBytesAt(b, h, b.count, size);
    TimesPlus(RowIndex(h, b.start, n), b.count, size);
    TimesNext(h, n);
    TimesGrows(h + 1, heads, n);
    TimesGrows(RowIndex(h, b.start + b.count, n), Times(heads, n), size);
  }

  /** The file after the first `h` heads of a block. */
  function WriteHeads(file: seq<int>, b: Block, heads: nat, n: nat, size: nat, h: nat): (f: seq<int>)
    requires Fits(b, heads, n, size) && |file| == Times(Times(heads, n), size) && h <= heads
    ensures |f| == |file|
    decreases h
  {
    if h == 0 then file
    else
      HeadFits(b, heads, n, size, h - 1);
      Splice(WriteHeads(file, b, heads, n, size, h - 1), Offset(h - 1, b.start, 0, n, size), HeadBytes(b, h - 1, b.count))
  }

  function WriteBlock(file: seq<int>, b: Block, heads: nat, n: nat, size: nat): (f: seq<int>)
    requires Fits(b, heads, n, size) && |file| == Times(Times(heads, n), size)
    ensures |f| == |file|
  {
    WriteHeads(file, b, heads, n, size, heads)
  }

  /** What a byte of the file is after writing some heads of a block. */
  lemma {:induction false} WrittenByte(file: seq<int>, b: Block, heads: nat, n: nat, size: nat, m: nat, h: nat, q: nat, x: nat)
    requires Fits(b, heads, n, size) && |file| == Times(Times(heads, n), size) && m <= heads
    requires h < heads && q < n && x < size
    ensures Offset(h, q, x, n, size) < |file|
    ensures WriteHeads(file, b, heads, n, size, m)[Offset(h, q, x, n, size)]
            == if h < m && b.HasQuery(q) then b.row(h, q - b.start)[x] else file[Offset(h, q, x, n, size)]
    decreases m
  {
    OffsetFits(h, q, x, heads, n, size);
    if m > 0 {
      var g, p := m - 1, Offset(h, q, x, n, size);
      WrittenByte(file, b, heads, n, size, g, h, q, x);
      HeadFits(b, heads, n, size, g);
      OffsetIn(h, q, x, g, b.start, b.start + b.count, n, size);
      SpliceAt(WriteHeads(file, b, heads, n, size, g), Offset(g, b.start, 0, n, size), HeadBytes(b, g, b.count), p);
      if h == g && b.HasQuery(q) {
        HeadByte(b, g, b.count, size, q - b.start, x);
        TimesPlus(RowIndex(g, b.start, n), q - b.start, size);
      }
    }
  }

  // ---- all blocks ----

  predicate AllFit(bs: seq<Block>, heads: nat, n: nat, size: nat) {
    forall i | 0 <= i < |bs| :: Fits(bs[i], heads, n, size)
  }

  /** No two blocks have a query row in common. */
  ghost predicate NoSharedRow(bs: seq<Block>) {
    forall i, j, q: int | 0 <= i < j < |bs| :: !(bs[i].HasQuery(q) && bs[j].HasQuery(q))
  }

  function Zeros(n: nat): seq<int> {
    seq(n, _ => 0)
  }

  /** The file after the first `i` blocks; it starts out filled with zeros. */
  function FileAfter(bs: seq<Block>, i: nat, heads: nat, n: nat, size: nat): (f: seq<int>)
    requires AllFit(bs, heads, n, size) && i <= |bs|
    ensures |f| == Times(Times(heads, n), size)
    decreases i
  {
    if i == 0 then Zeros(Times(Times(heads, n), size)) else WriteBlock(FileAfter(bs, i - 1, heads, n, size), bs[i - 1], heads, n, size)
  }

  /** The last block that has a row decides what the file holds of it. */
  lemma {:induction false} LastWriteStays(bs: seq<Block>, i: nat, heads: nat, n: nat, size: nat, j: nat, h: nat, q: nat, x: nat)
    requires AllFit(bs, heads, n, size) && j < i <= |bs| && h < heads && q < n && x < size
    requires bs[j].HasQuery(q) && forall k | j < k < i :: !bs[k].HasQuery(q)
    ensures Offset(h, q, x, n, size) < Times(Times(heads, n), size)
    ensures FileAfter(bs, i, heads, n, size)[Offset(h, q, x, n, size)] == bs[j].row(h, q - bs[j].start)[x]
    decreases i
  {
    OffsetFits(h, q, x, heads, n, size);
    WrittenByte(FileAfter(bs, i - 1, heads, n, size), bs[i - 1], heads, n, size, heads, h, q, x);
    if j < i - 1 {
      LastWriteStays(bs, i - 1, heads, n, size, j, h, q, x);
    }
  }

  /** Whatever the order of the blocks, none overwrites another when no two share a row. */
  lemma {:induction false} BlocksKept(bs: seq<Block>, heads: nat, n: nat, size: nat, j: nat, h: nat, q: nat, x: nat)
    requires AllFit(bs, heads, n, size) && NoSharedRow(bs) && j < |bs|
    requires h < heads && q < n && x < size && bs[j].HasQuery(q)
    ensures Offset(h, q, x, n, size) < Times(Times(heads, n), size)
    ensures FileAfter(bs, |bs|, heads, n, size)[Offset(h, q, x, n, size)] == bs[j].row(h, q - bs[j].start)[x]
  {
    LastWriteStays(bs, |bs|, heads, n, size, j, h, q, x);
  }

  // ---- the flag ----

  function Rows(bs: seq<Block>, i: nat): nat
    requires i <= |bs|
  {
    if i == 0 then 0 else Rows(bs, i - 1) + bs[i - 1].count
  }

  /** The bytes written: for each block, its rows in every head. */
  function Written(bs: seq<Block>, i: nat, heads: nat, size: nat): nat
    requires i <= |bs|
  {
    if i == 0 then 0 else Written(bs, i - 1, heads, size) + Times(heads, Times(bs[i - 1].count, size))
  }

  lemma {:induction false} Shares(heads: nat, a: nat, b: nat, size: nat)
    ensures Times(heads, Times(a + b, size)) == Times(heads, Times(a, size)) + Times(heads, Times(b, size))
  {
    TimesPlus(a, b, size);
    var x, y := Times(a, size), Times(b, size);
    assert heads * (x + y) == heads * x + heads * y;
  }

  lemma {:induction false} WrittenRows(bs: seq<Block>, i: nat, heads: nat, size: nat)
    requires i <= |bs|
    ensures Written(bs, i, heads, size) == Times(heads, Times(Rows(bs, i), size))
    decreases i
  {
    if i == 0 {
      TimesNext(0, size);
      assert heads * 0 == 0;
    } else {
      WrittenRows(bs, i - 1, heads, size);
      Shares(heads, Rows(bs, i - 1), bs[i - 1].count, size);
    }
  }

  lemma {:induction false} SameShare(heads: nat, a: nat, b: nat, size: nat)
    requires heads > 0 && size > 0
    ensures Times(heads, Times(a, size)) == Times(heads, Times(b, size)) <==> a == b
  {
    if a < b {
      Larger(heads, a, b, size);
    } else if b < a {
      Larger(heads, b, a, size);
    }
  }

  lemma {:induction false} Larger(heads: nat, a: nat, b: nat, size: nat)
    requires heads > 0 && size > 0 && a < b
    ensures Times(heads, Times(a, size)) < Times(heads, Times(b, size))
  {
    TimesNext(a, size);
    TimesGrows(a + 1, b, size);
    var x, y := Times(a, size), Times(b, size);
    assert heads * y == heads * x + heads * (y - x);
    assert heads * (y - x) > 0;
  }

  /** Some of the first `i` blocks has query row `q`. */
  predicate Covered(bs: seq<Block>, i: nat, q: int)
    requires i <= |bs|
  {
    i > 0 && (bs[i - 1].HasQuery(q) || Covered(bs, i - 1, q))
  }

  lemma {:induction false} CoveredIff(bs: seq<Block>, i: nat, q: int)
    requires i <= |bs|
    ensures Covered(bs, i, q) <==> exists j :: 0 <= j < i && bs[j].HasQuery(q)
    decreases i
  {
    if i > 0 {
      CoveredIff(bs, i - 1, q);
    }
  }

  /** How many of the first `m` query rows the first `i` blocks cover. */
  function CoveredBelow(bs: seq<Block>, i: nat, m: nat): nat
    requires i <= |bs|
    decreases m
  {
    if m == 0 then 0 else CoveredBelow(bs, i, m - 1) + Bit(Covered(bs, i, m - 1))
  }

  /** How many of the first `m` query rows a block has. */
  function OwnBelow(b: Block, m: nat): nat {
    if m == 0 then 0 else OwnBelow(b, m - 1) + Bit(b.HasQuery(m - 1))
  }

  lemma {:induction false} OwnClosed(b: Block, m: nat)
    requires b.start >= 0
    ensures OwnBelow(b, m) == if m <= b.start then 0 else if m <= b.start + b.count then m - b.start else b.count
    decreases m
  {
    if m > 0 {
      OwnClosed(b, m - 1);
    }
  }

  /** How many of the first `m` query rows block `i` writes although an earlier one has them. */
  function SharedBelow(bs: seq<Block>, i: nat, m: nat): nat
    requires i < |bs|
    decreases m
  {
    if m == 0 then 0 else SharedBelow(bs, i, m - 1) + Bit(Covered(bs, i, m - 1) && bs[i].HasQuery(m - 1))
  }

  lemma {:induction false} CoveredNext(bs: seq<Block>, i: nat, m: nat)
    requires i < |bs|
    ensures CoveredBelow(bs, i + 1, m) + SharedBelow(bs, i, m) == CoveredBelow(bs, i, m) + OwnBelow(bs[i], m)
    decreases m
  {
    if m > 0 {
      CoveredNext(bs, i, m - 1);
    }
  }

  /** How many rows the first `i` blocks write again. */
  function Rewritten(bs: seq<Block>, i: nat, n: nat): nat
    requires i <= |bs|
  {
    if i == 0 then 0 else Rewritten(bs, i - 1, n) + SharedBelow(bs, i - 1, n)
  }

  lemma {:induction false} SharedSome(bs: seq<Block>, i: nat, m: nat, q: int)
    requires i < |bs| && 0 <= q < m && Covered(bs, i, q) && bs[i].HasQuery(q)
    ensures SharedBelow(bs, i, m) > 0
    decreases m
  {
    if q < m - 1 {
      SharedSome(bs, i, m - 1, q);
    }
  }

  lemma {:induction false} SharedNone(bs: seq<Block>, i: nat, m: nat)
    requires i < |bs| && NoSharedRow(bs)
    ensures SharedBelow(bs, i, m) == 0
    decreases m
  {
    if m > 0 {
      SharedNone(bs, i, m - 1);
      CoveredIff(bs, i, m - 1);
    }
  }

  lemma {:induction false} RewrittenNone(bs: seq<Block>, i: nat, n: nat)
    requires i <= |bs| && NoSharedRow(bs)
    ensures Rewritten(bs, i, n) == 0
    decreases i
  {
    if i > 0 {
      RewrittenNone(bs, i - 1, n);
      SharedNone(bs, i - 1, n);
    }
  }

  lemma {:induction false} RewrittenSome(bs: seq<Block>, i: nat, n: nat, j: nat)
    requires j < i <= |bs| && SharedBelow(bs, j, n) > 0
    ensures Rewritten(bs, i, n) > 0
    decreases i
  {
    if j < i - 1 {
      RewrittenSome(bs, i - 1, n, j);
    }
  }

  /** Nothing is written again exactly when no two blocks share a row. */
  lemma {:induction false} RewrittenIff(bs: seq<Block>, heads: nat, n: nat, size: nat)
    requires AllFit(bs, heads, n, size)
    ensures Rewritten(bs, |bs|, n) == 0 <==> NoSharedRow(bs)
  {
    if NoSharedRow(bs) {
      RewrittenNone(bs, |bs|, n);
    } else {
      var i: nat, j: nat, q: int :| i < j < |bs| && bs[i].HasQuery(q) && bs[j].HasQuery(q);
      assert Fits(bs[j], heads, n, size);
      CoveredIff(bs, j, q);
      SharedSome(bs, j, n, q);
      RewrittenSome(bs, |bs|, n, j);
    }
  }

  lemma {:induction false} NoneCovered(bs: seq<Block>, m: nat)
    ensures CoveredBelow(bs, 0, m) == 0
  {
    if m > 0 {
      NoneCovered(bs, m - 1);
    }
  }

  lemma {:induction false} CoveredCount(bs: seq<Block>, i: nat, heads: nat, n: nat, size: nat)
    requires AllFit(bs, heads, n, size) && i <= |bs|
    ensures CoveredBelow(bs, i, n) + Rewritten(bs, i, n) == Rows(bs, i)
    decreases i
  {
    if i == 0 {
      NoneCovered(bs, n);
    } else {
      CoveredCount(bs, i - 1, heads, n, size);
      CoveredNext(bs, i - 1, n);
      assert Fits(bs[i - 1], heads, n, size);
      OwnClosed(bs[i - 1], n);
    }
  }

  lemma {:induction false} AtMostAll(bs: seq<Block>, i: nat, m: nat)
    requires i <= |bs|
    ensures CoveredBelow(bs, i, m) <= m
    decreases m
  {
    if m > 0 {
      AtMostAll(bs, i, m - 1);
    }
  }

  lemma {:induction false} FullCovers(bs: seq<Block>, i: nat, m: nat, q: int)
    requires i <= |bs| && CoveredBelow(bs, i, m) == m && 0 <= q < m
    ensures Covered(bs, i, q)
    decreases m
  {
    AtMostAll(bs, i, m - 1);
    if q < m - 1 {
      FullCovers(bs, i, m - 1, q);
    }
  }

  lemma {:induction false} CoversFull(bs: seq<Block>, i: nat, m: nat)
    requires i <= |bs| && forall q: int | 0 <= q < m :: Covered(bs, i, q)
    ensures CoveredBelow(bs, i, m) == m
    decreases m
  {
    if m > 0 {
      CoversFull(bs, i, m - 1);
      assert Covered(bs, i, m - 1);
    }
  }

  /** Some block has query row `q`. */
  ghost predicate InSome(bs: seq<Block>, q: int) {
    exists j :: 0 <= j < |bs| && bs[j].HasQuery(q)
  }

  ghost predicate AllCovered(bs: seq<Block>, n: nat) {
    forall q: int | 0 <= q < n :: InSome(bs, q)
  }

  lemma {:induction false} AllCoveredIff(bs: seq<Block>, n: nat)
    ensures CoveredBelow(bs, |bs|, n) == n <==> AllCovered(bs, n)
  {
    if CoveredBelow(bs, |bs|, n) == n {
      forall q: int | 0 <= q < n
        ensures InSome(bs, q)
      {
        FullCovers(bs, |bs|, n, q);
        CoveredIff(bs, |bs|, q);
      }
    }
    if AllCovered(bs, n) {
      forall q: int | 0 <= q < n
        ensures Covered(bs, |bs|, q)
      {
        assert InSome(bs, q);
        CoveredIff(bs, |bs|, q);
      }
      CoversFull(bs, |bs|, n);
    }
  }

  /** The flag of an export of these blocks. */
  predicate Complete(bs: seq<Block>, heads: nat, n: nat, size: nat) {
    Written(bs, |bs|, heads, size) == Times(heads, Times(n, size))
  }

  /** How many query rows no block has. */
  function Missing(bs: seq<Block>, n: nat): int {
    n - CoveredBelow(bs, |bs|, n)
  }

  /** The export counts as complete exactly when as many rows are written again as are missing. */
  lemma {:induction false} CompleteIff(bs: seq<Block>, heads: nat, n: nat, size: nat)
    requires AllFit(bs, heads, n, size) && heads > 0 && size > 0
    ensures Complete(bs, heads, n, size) <==> Missing(bs, n) == Rewritten(bs, |bs|, n)
  {
    WrittenRows(bs, |bs|, heads, size);
    SameShare(heads, Rows(bs, |bs|), n, size);
    CoveredCount(bs, |bs|, heads, n, size);
  }

  /**
   A flagged export covers every row if and only if no two blocks share one, and an export that
   covers every row is flagged if and only if none is shared.
   */
  lemma {:induction false} CompleteTrustedIff(bs: seq<Block>, heads: nat, n: nat, size: nat)
    requires AllFit(bs, heads, n, size) && heads > 0 && size > 0
    ensures Complete(bs, heads, n, size) ==> (AllCovered(bs, n) <==> NoSharedRow(bs))
    ensures AllCovered(bs, n) ==> (Complete(bs, heads, n, size) <==> NoSharedRow(bs))
    ensures NoSharedRow(bs) ==> (Complete(bs, heads, n, size) <==> AllCovered(bs, n))
  {
    CompleteIff(bs, heads, n, size);
    AllCoveredIff(bs, n);
    RewrittenIff(bs, heads, n, size);
  }

  /**
   The flag is right exactly when no two blocks share a row, or when rows are missing and not as
   many are written again.
   */
  lemma {:induction false} FlagRightIff(bs: seq<Block>, heads: nat, n: nat, size: nat)
    requires AllFit(bs, heads, n, size) && heads > 0 && size > 0
    ensures (Complete(bs, heads, n, size) <==> AllCovered(bs, n))
            <==> NoSharedRow(bs) || (Missing(bs, n) != 0 && Missing(bs, n) != Rewritten(bs, |bs|, n))
  {
    CompleteIff(bs, heads, n, size);
    AllCoveredIff(bs, n);
    RewrittenIff(bs, heads, n, size);
  }

  /** The block holds rows of the matrix. */
  ghost predicate IsPart(b: Block, matrix: (nat, nat) -> seq<int>) {
    b.start >= 0 && forall h: nat, i: nat :: b.row(h, i) == matrix(h, b.start + i)
  }

  lemma {:induction false} LastWith(bs: seq<Block>, i: nat, q: int) returns (j: nat)
    requires i <= |bs| && Covered(bs, i, q)
    ensures j < i && bs[j].HasQuery(q) && forall k | j < k < i :: !bs[k].HasQuery(q)
    decreases i
  {
    if bs[i - 1].HasQuery(q) {
      j := i - 1;
    } else {
      j := LastWith(bs, i - 1, q);
    }
  }

  /** Blocks of one matrix, shared rows or not, leave every row they have as the matrix has it. */
  lemma {:induction false} CoveredIsMatrix(bs: seq<Block>, heads: nat, n: nat, size: nat, matrix: (nat, nat) -> seq<int>, h: nat, q: nat, x: nat)
    requires AllFit(bs, heads, n, size) && (forall j | 0 <= j < |bs| :: IsPart(bs[j], matrix)) && InSome(bs, q)
    requires h < heads && q < n && x < size
    ensures Offset(h, q, x, n, size) < Times(Times(heads, n), size)
    ensures |matrix(h, q)| == size && FileAfter(bs, |bs|, heads, n, size)[Offset(h, q, x, n, size)] == matrix(h, q)[x]
  {
    CoveredIff(bs, |bs|, q);
    var j := LastWith(bs, |bs|, q);
    LastWriteStays(bs, |bs|, heads, n, size, j, h, q, x);
    assert IsPart(bs[j], matrix) && Fits(bs[j], heads, n, size);
  }

  /** A complete export of blocks that share no row is the matrix, row-major by head, query and key. */
  lemma {:induction false} CompleteIsMatrix(bs: seq<Block>, heads: nat, n: nat, size: nat, matrix: (nat, nat) -> seq<int>, h: nat, q: nat, x: nat)
    requires AllFit(bs, heads, n, size) && NoSharedRow(bs) && Complete(bs, heads, n, size)
    requires forall j | 0 <= j < |bs| :: IsPart(bs[j], matrix)
    requires h < heads && q < n && x < size
    ensures Offset(h, q, x, n, size) < Times(Times(heads, n), size)
    ensures |matrix(h, q)| == size && FileAfter(bs, |bs|, heads, n, size)[Offset(h, q, x, n, size)] == matrix(h, q)[x]
  {
    CompleteTrustedIff(bs, heads, n, size);
    assert InSome(bs, q);
    CoveredIsMatrix(bs, heads, n, size, matrix, h, q, x);
  }

  /** Overlapping blocks: one row written twice passes for both rows of two. */
  lemma {:induction false} OverlapLooksComplete(b: Block)
    requires Fits(b, 1, 2, 4) && b.start == 0 && b.count == 1
    ensures Complete([b, b], 1, 2, 4) && !InSome([b, b], 1)
  {
    assert Written([b, b], 0, 1, 4) == 0;
    assert Written([b, b], 1, 1, 4) == 4;
  }

  // ---- more than one file ----

  /** The flag when bytes have been counted for earlier files. */
  ghost predicate CompleteAfter(before: nat, bs: seq<Block>, heads: nat, n: nat, size: nat) {
    before + Written(bs, |bs|, heads, size) == Times(heads, Times(n, size))
  }

  /**
   The flag of a later file is the one its own blocks deserve exactly when nothing was counted
   before it, or when neither its own bytes nor all bytes together are as many as a file has.
   */
  lemma {:induction false} LaterFlagIff(before: nat, bs: seq<Block>, heads: nat, n: nat, size: nat)
    ensures var own, total := Written(bs, |bs|, heads, size), Times(heads, Times(n, size));
            (CompleteAfter(before, bs, heads, n, size) <==> Complete(bs, heads, n, size))
            <==> before == 0 || (own != total && before + own != total)
  {
  }

  /** So after a complete file, a complete second one is never flagged. */
  lemma {:induction false} SecondNeverFlagged(first: seq<Block>, second: seq<Block>, heads: nat, n: nat, size: nat)
    requires Complete(first, heads, n, size) && Complete(second, heads, n, size) && Written(first, |first|, heads, size) > 0
    ensures !CompleteAfter(Written(first, |first|, heads, size), second, heads, n, size)
  {
    LaterFlagIff(Written(first, |first|, heads, size), second, heads, n, size);
  }

  // ---- the exporter ----

  datatype Metadata = Metadata(heads: nat, dtype: Dtype, bytes: nat, blocks: nat, written: nat, complete: bool)

  class Exporter {
    const tokenCount: nat
    const requested: Option<Dtype>  // none: the type of the model's weights
    var file: Option<seq<int>>     // the part file while it is open
    var output: Option<seq<int>>   // the published file
    var heads: nat
    var dtype: Dtype
    var blocksWritten: nat
    var bytesWritten: nat
    ghost var blocksBefore: nat  // counted for earlier files of this exporter
    ghost var bytesBefore: nat

    function RowSize(): nat
      reads this`dtype
    {
      tokenCount * ElementSize(dtype)
    }

    ghost predicate Valid()
      reads this
    {
      tokenCount > 0 && (file.Some? ==> |file.value| == Times(Times(heads, tokenCount), RowSize()))
    }

    /** So far the file holds exactly these blocks, and the counts go on from the files before. */
    ghost predicate Holds(bs: seq<Block>)
      reads this
    {
      if file.None? then bs == [] && blocksWritten == blocksBefore && bytesWritten == bytesBefore
      else
        && AllFit(bs, heads, tokenCount, RowSize()) && blocksWritten == blocksBefore + |bs|
        && file.value == FileAfter(bs, |bs|, heads, tokenCount, RowSize())
        && bytesWritten == bytesBefore + Written(bs, |bs|, heads, RowSize())
    }

    constructor (tokenCount: nat, requested: Option<Dtype>)
      requires tokenCount > 0 && requested != Some(OtherType)
      ensures Valid() && Holds([]) && blocksBefore == 0 && bytesBefore == 0
    {
      this.tokenCount, this.requested := tokenCount, requested;
      file, output, heads, dtype, blocksWritten, bytesWritten := None, None, 0, OtherType, 0, 0;
      blocksBefore, bytesBefore := 0, 0;
    }

    /** The type in which a block is stored. */
    function StorageDtype(b: Block): Dtype {
      if requested.Some? then requested.value else b.dtype
    }

    predicate Accepts(b: Block)
      reads this
    {
      && b.start >= 0 && b.start + b.count <= tokenCount && b.keys == tokenCount
      && StorageDtype(b) != OtherType
      && (file.Some? ==> heads == b.heads && dtype == StorageDtype(b))
    }

    /** The first block fixes the number of heads and the stored type, and opens the file. */
    method Open(b: Block)
      requires Valid()
      modifies this`file, this`heads, this`dtype
      ensures Valid() && file.Some?
      ensures old(file).Some? ==> file == old(file) && heads == old(heads) && dtype == old(dtype)
      ensures old(file).None?
              ==> heads == b.heads && dtype == StorageDtype(b) && file.value == Zeros(Times(Times(heads, tokenCount), RowSize()))
    {
      if file.None? {
        heads, dtype := b.heads, StorageDtype(b);
        file := Some(Zeros(Times(Times(heads, tokenCount), RowSize())));
      }
    }

    /** Write a block head by head. */
    method WriteRows(b: Block)
      requires Valid() && file.Some? && Fits(b, heads, tokenCount, RowSize())
      modifies this`file, this`bytesWritten
      ensures Valid() && file == Some(WriteBlock(old(file).value, b, heads, tokenCount, RowSize()))
      ensures bytesWritten == old(bytesWritten) + Times(heads, Times(b.count, RowSize()))
    {
      var f, e := file.value, ElementSize(dtype);
      TimesNext(0, Times(b.count, RowSize()));
      for h := 0 to heads
        invariant f == WriteHeads(old(file).value, b, heads, tokenCount, RowSize(), h)
        invariant bytesWritten == old(bytesWritten) + Times(h, Times(b.count, RowSize()))
      {
        var rowBytes := HeadBytes(b, h, b.count);
        WriterOffset(h, b.start, tokenCount, e);
        HeadFits(b, heads, tokenCount, RowSize(), h);
        var offset := (h * tokenCount * tokenCount + b.start * tokenCount) * e;
        f := Splice(f, offset, rowBytes);
        bytesWritten := bytesWritten + |rowBytes|;
        TimesNext(h, Times(b.count, RowSize()));
      }
      file := Some(f);
    }

    /** Write one block at its final offsets; a block that does not fit is refused. */
    method Write(b: Block, ghost bs: seq<Block>) returns (ok: bool)
      requires Valid() && Holds(bs) && Sized(b, tokenCount * ElementSize(StorageDtype(b)))
      modifies this`file, this`heads, this`dtype, this`bytesWritten, this`blocksWritten
      ensures Valid() && ok == old(Accepts(b))
      ensures Holds(if ok then bs + [b] else bs)
      ensures !ok ==> file == old(file) && bytesWritten == old(bytesWritten) && blocksWritten == old(blocksWritten)
    {
      if !(b.start >= 0 && b.start + b.count <= tokenCount && b.keys == tokenCount) {
        return false;
      }
      if StorageDtype(b) == OtherType {
        return false;
      }
      if file.Some? && (heads != b.heads || dtype != StorageDtype(b)) {
        return false;
      }
      Open(b);
      WriteRows(b);
      blocksWritten := blocksWritten + 1;
      ok := true;
      Appended(bs, b, heads, tokenCount, RowSize());
    }

    /** Publish the file. The counts are not reset, so that those of a next file include them. */
    method Finalize(ghost bs: seq<Block>) returns (m: Option<Metadata>)
      requires Valid() && Holds(bs)
      modifies this`file, this`output, this`blocksBefore, this`bytesBefore
      ensures Valid() && Holds([]) && blocksBefore == blocksWritten && bytesBefore == bytesWritten
      ensures m.Some? <==> old(file).Some?
      ensures m.None? ==> output == old(output)
      ensures m.Some?
              ==> AllFit(bs, heads, tokenCount, RowSize())
                  && output == Some(FileAfter(bs, |bs|, heads, tokenCount, RowSize())) && file == None
                  && m.value == Metadata(heads, dtype, Times(Times(heads, tokenCount), RowSize()), old(blocksBefore) + |bs|,
                                         old(bytesBefore) + Written(bs, |bs|, heads, RowSize()),
                                         CompleteAfter(old(bytesBefore), bs, heads, tokenCount, RowSize()))
    {
      blocksBefore, bytesBefore := blocksWritten, bytesWritten;
      if file.None? {
        return None;
      }
      var total := heads * tokenCount * tokenCount * ElementSize(dtype);
      TotalBytes(heads, tokenCount, ElementSize(dtype));
      m := Some(Metadata(heads, dtype, total, blocksWritten, bytesWritten, bytesWritten == total));
      output, file := file, None;
    }

    /** Give the file up; what was counted for it stays counted. */
    method Abort(ghost bs: seq<Block>)
      requires Valid() && Holds(bs)
      modifies this`file, this`blocksBefore, this`bytesBefore
      ensures Valid() && Holds([]) && file == None && blocksBefore == blocksWritten && bytesBefore == bytesWritten
    {
      blocksBefore, bytesBefore := blocksWritten, bytesWritten;
      file := None;
    }
  }

  lemma {:induction false} TotalBytes(heads: nat, n: nat, e: nat)
    ensures heads * n * n * e == Times(Times(heads, n), n * e) == Times(heads, Times(n, n * e))
  {
    var hn, ne := heads * n, n * e;
    assert hn * n * e == hn * ne;
    assert hn * ne == heads * (n * ne);
  }

  lemma {:induction false} FilePrefix(bs: seq<Block>, b: Block, i: nat, heads: nat, n: nat, size: nat)
    requires AllFit(bs + [b], heads, n, size) && AllFit(bs, heads, n, size) && i <= |bs|
    ensures FileAfter(bs + [b], i, heads, n, size) == FileAfter(bs, i, heads, n, size)
    ensures Written(bs + [b], i, heads, size) == Written(bs, i, heads, size)
    decreases i
  {
    if i > 0 {
      FilePrefix(bs, b, i - 1, heads, n, size);
    }
  }

  lemma {:induction false} Appended(bs: seq<Block>, b: Block, heads: nat, n: nat, size: nat)
    requires AllFit(bs, heads, n, size) && Fits(b, heads, n, size)
    ensures AllFit(bs + [b], heads, n, size)
    ensures FileAfter(bs + [b], |bs| + 1, heads, n, size) == WriteBlock(FileAfter(bs, |bs|, heads, n, size), b, heads, n, size)
    ensures Written(bs + [b], |bs| + 1, heads, size) == Written(bs, |bs|, heads, size) + Times(heads, Times(b.count, size))
  {
    FilePrefix(bs, b, |bs|, heads, n, size);
  }
}
