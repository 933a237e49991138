/**
 Prefix-chained chunk hashes: the hash of a chunk depends on the hash of everything before it,
 so that equal hashes mean equal prefixes. The hash function is a parameter.
 */
module ChunkHashes {
  import opened Text
  import opened Arithmetic

  type Hasher = (int, seq<int>) -> int

  /** Different inputs have different hashes, and none of them is the seed. */
  ghost predicate Collisionless(h: Hasher, seed: int) {
    && (forall p: int, c: seq<int>, q: int, d: seq<int> :: h(p, c) == h(q, d) ==> p == q && c == d)
    && (forall p: int, c: seq<int> :: h(p, c) != seed)
  }

  lemma {:induction false} BoundDivides(n: nat, size: nat)
    requires size > 0
    ensures n - n % size == Times(n / size, size) && n < Times(n / size + 1, size)
  {
    TimesNext(n / size, size);
  }

  /** A chunk of `ids`. */
  function Chunk(ids: seq<int>, i: nat, size: nat): seq<int>
    requires Times(i, size) + size <= |ids|
  {
    ids[Times(i, size)..Times(i, size) + size]
  }

  /** The first `n` chunks fit into `ids`. */
  predicate Fits(ids: seq<int>, n: nat, size: nat) {
    Times(n, size) <= |ids|
  }

  /** The hash of the first `n` chunks. */
  function PrefixHash(h: Hasher, seed: int, ids: seq<int>, n: nat, size: nat): int
    requires Fits(ids, n, size)
    decreases n
  {
    if n == 0 then seed
    else
      TimesNext(n - 1, size);
      h(PrefixHash(h, seed, ids, n - 1, size), Chunk(ids, n - 1, size))
  }

  predicate Agree(a: seq<int>, b: seq<int>, n: nat) {
    n <= |a| && n <= |b| && forall k | 0 <= k < n :: a[k] == b[k]
  }

  lemma {:induction false} ChunkAgrees(a: seq<int>, b: seq<int>, i: nat, size: nat)
    requires Times(i, size) + size <= |a| && Times(i, size) + size <= |b|
    ensures Agree(a, b, Times(i, size) + size) <==> Agree(a, b, Times(i, size)) && Chunk(a, i, size) == Chunk(b, i, size)
  {
    var lo := Times(i, size);
    if Agree(a, b, lo) && Chunk(a, i, size) == Chunk(b, i, size) {
      forall k | 0 <= k < lo + size
        ensures a[k] == b[k]
      {
        if k >= lo {
          assert a[k] == Chunk(a, i, size)[k - lo] == Chunk(b, i, size)[k - lo] == b[k];
        }
      }
    }
  }

  /** Two prompts share a chunk hash exactly when they agree on the whole prefix up to it. */
  lemma {:induction false} SameHashIff(h: Hasher, seed: int, a: seq<int>, i: nat, b: seq<int>, j: nat, size: nat)
    requires Collisionless(h, seed) && Fits(a, i, size) && Fits(b, j, size)
    ensures PrefixHash(h, seed, a, i, size) == PrefixHash(h, seed, b, j, size)
            <==> i == j && Agree(a, b, Times(i, size))
    decreases i
  {
    TimesNext(0, size);
    if i > 0 && j > 0 {
      TimesNext(i - 1, size);
      TimesNext(j - 1, size);
      SameHashIff(h, seed, a, i - 1, b, j - 1, size);
      if i == j {
        ChunkAgrees(a, b, i - 1, size);
      }
    }
  }

  // ---- the map of a prompt ----

  /** The map from chunk hashes to token ranges over the first `n` chunks. */
  function HashMap(h: Hasher, seed: int, ids: seq<int>, n: nat, size: nat): map<int, (nat, nat)>
    requires Fits(ids, n, size)
    decreases n
  {
    if n == 0 then map[]
    else
      TimesNext(n - 1, size);
      HashMap(h, seed, ids, n - 1, size)[PrefixHash(h, seed, ids, n, size) := (Times(n - 1, size), Times(n, size))]
  }

  /** How many whole chunks a prompt has. */
  function Chunks(ids: seq<int>, size: nat): (n: nat)
    requires size > 0
    ensures Fits(ids, n, size)
  {
    BoundDivides(|ids|, size);
    |ids| / size
  }

  method ExpectedChunkHashes(h: Hasher, seed: int, ids: seq<int>, size: nat) returns (result: map<int, (nat, nat)>)
    requires size > 0
    ensures result == HashMap(h, seed, ids, Chunks(ids, size), size)
  {
    var prefix := seed;
    result := map[];
    var full := |ids| - |ids| % size;
    BoundDivides(|ids|, size);
    var start := 0;
    ghost var n := 0;
    TimesNext(0, size);
    while start < full
      invariant n <= Chunks(ids, size) && start == Times(n, size) && Fits(ids, n, size)
      invariant prefix == PrefixHash(h, seed, ids, n, size)
      invariant result == HashMap(h, seed, ids, n, size)
      decreases full - start
    {
      if n >= Chunks(ids, size) {
        assert false;
      }
      TimesNext(n, size);
      TimesGrows(n + 1, Chunks(ids, size), size);
      var end := start + size;
      prefix := h(prefix, ids[start..end]);
      result := result[prefix := (start, end)];
      start, n := end, n + 1;
    }
    if n < Chunks(ids, size) {
      TimesNext(n, size);
      TimesGrows(n + 1, Chunks(ids, size), size);
    }
  }

  lemma {:induction false} FitsLess(ids: seq<int>, i: nat, n: nat, size: nat)
    requires Fits(ids, n, size) && i <= n
    ensures Fits(ids, i, size)
  {
    TimesGrows(i, n, size);
  }

  /** A key of the map is the hash of one of the chunks. */
  ghost predicate IsHash(h: Hasher, seed: int, ids: seq<int>, n: nat, size: nat, x: int) {
    exists i: nat :: HashOf(h, seed, ids, n, size, x, i)
  }

  predicate HashOf(h: Hasher, seed: int, ids: seq<int>, n: nat, size: nat, x: int, i: nat) {
    i < n && Fits(ids, i + 1, size) && x == PrefixHash(h, seed, ids, i + 1, size)
  }

  /** Chunk `i` is found under its own hash: none is lost to a collision. */
  lemma {:induction false} MapHolds(h: Hasher, seed: int, ids: seq<int>, n: nat, size: nat, i: nat)
    requires Collisionless(h, seed) && Fits(ids, n, size) && i < n && Fits(ids, i + 1, size)
    ensures var x := PrefixHash(h, seed, ids, i + 1, size);
            x in HashMap(h, seed, ids, n, size) && HashMap(h, seed, ids, n, size)[x] == (Times(i, size), Times(i + 1, size))
    decreases n
  {
    if i < n - 1 {
      FitsLess(ids, n - 1, n, size);
      MapHolds(h, seed, ids, n - 1, size, i);
      SameHashIff(h, seed, ids, i + 1, ids, n, size);
    }
  }

  lemma {:induction false} MapKeys(h: Hasher, seed: int, ids: seq<int>, n: nat, size: nat, x: int)
    requires Fits(ids, n, size)
    ensures x in HashMap(h, seed, ids, n, size) <==> IsHash(h, seed, ids, n, size, x)
    decreases n
  {
    if n > 0 {
      FitsLess(ids, n - 1, n, size);
      MapKeys(h, seed, ids, n - 1, size, x);
      if IsHash(h, seed, ids, n - 1, size, x) {
        var i: nat :| HashOf(h, seed, ids, n - 1, size, x, i);
        assert HashOf(h, seed, ids, n, size, x, i);
      }
      if x == PrefixHash(h, seed, ids, n, size) {
        assert HashOf(h, seed, ids, n, size, x, n - 1);
      }
      if IsHash(h, seed, ids, n, size, x) {
        var i: nat :| HashOf(h, seed, ids, n, size, x, i);
        assert i < n - 1 ==> HashOf(h, seed, ids, n - 1, size, x, i);
      }
    }
  }

  /** The map has one entry for each whole chunk. */
  lemma {:induction false} MapSize(h: Hasher, seed: int, ids: seq<int>, n: nat, size: nat)
    requires Collisionless(h, seed) && Fits(ids, n, size)
    ensures |HashMap(h, seed, ids, n, size)| == n
    decreases n
  {
    if n > 0 {
      FitsLess(ids, n - 1, n, size);
      MapSize(h, seed, ids, n - 1, size);
      var x := PrefixHash(h, seed, ids, n, size);
      MapKeys(h, seed, ids, n - 1, size, x);
      if IsHash(h, seed, ids, n - 1, size, x) {
        var i: nat :| HashOf(h, seed, ids, n - 1, size, x, i);
        SameHashIff(h, seed, ids, i + 1, ids, n, size);
      }
      NewKey(HashMap(h, seed, ids, n - 1, size), x, (Times(n - 1, size), Times(n, size)));
    }
  }

  lemma {:induction false} NewKey(m: map<int, (nat, nat)>, x: int, v: (nat, nat))
    requires x !in m
    ensures |m[x := v]| == |m| + 1
  {
    assert m[x := v].Keys == m.Keys + {x};
  }

  /** Every token of a whole chunk is in the range of exactly one chunk. */
  lemma {:induction false} RangesTile(ids: seq<int>, size: nat, p: nat)
    requires size > 0 && p < |ids| - |ids| % size
    ensures p / size < Chunks(ids, size) && Times(p / size, size) <= p < Times(p / size + 1, size)
    ensures forall i: nat | Times(i, size) <= p < Times(i + 1, size) :: i == p / size
  {
    BoundDivides(p, size);
    BoundDivides(|ids|, size);
    if p / size >= Chunks(ids, size) {
      TimesGrows(Chunks(ids, size), p / size, size);
    }
    forall i: nat | Times(i, size) <= p < Times(i + 1, size)
      ensures i == p / size
    {
      if i < p / size {
        TimesGrows(i + 1, p / size, size);
      } else if i > p / size {
        TimesGrows(p / size + 1, i, size);
      }
    }
  }

  // ---- hashes shared by two prompts ----

  ghost function Shared(h: Hasher, seed: int, a: seq<int>, b: seq<int>, size: nat): set<int>
    requires size > 0
  {
    HashMap(h, seed, a, Chunks(a, size), size).Keys * HashMap(h, seed, b, Chunks(b, size), size).Keys
  }

  lemma {:induction false} FitsChunks(ids: seq<int>, size: nat, n: nat)
    requires size > 0
    ensures Fits(ids, n, size) <==> n <= Chunks(ids, size)
  {
    BoundDivides(|ids|, size);
    if n <= Chunks(ids, size) {
      FitsLess(ids, n, Chunks(ids, size), size);
    } else {
      TimesGrows(Chunks(ids, size) + 1, n, size);
    }
  }

  /** Two prompts that agree on `m` chunks and not on the next share exactly these `m`. */
  lemma {:induction false} SharedKeys(h: Hasher, seed: int, a: seq<int>, b: seq<int>, size: nat, m: nat, x: int)
    requires size > 0 && Collisionless(h, seed) && Fits(a, m, size) && Agree(a, b, Times(m, size))
    requires Fits(a, m + 1, size) && Fits(b, m + 1, size) ==> !Agree(a, b, Times(m + 1, size))
    ensures x in Shared(h, seed, a, b, size) <==> x in HashMap(h, seed, a, m, size)
  {
    FitsChunks(a, size, m);
    FitsChunks(b, size, m);
    MapKeys(h, seed, a, m, size, x);
    MapKeys(h, seed, a, Chunks(a, size), size, x);
    MapKeys(h, seed, b, Chunks(b, size), size, x);
    if x in HashMap(h, seed, a, m, size) {
      var i: nat :| HashOf(h, seed, a, m, size, x, i);
      SharedHere(h, seed, a, b, size, m, x, i);
    }
    if x in Shared(h, seed, a, b, size) {
      var i: nat :| HashOf(h, seed, a, Chunks(a, size), size, x, i);
      var j: nat :| HashOf(h, seed, b, Chunks(b, size), size, x, j);
      SharedOnly(h, seed, a, b, size, m, x, i, j);
    }
  }

  lemma {:induction false} AgreeLess(a: seq<int>, b: seq<int>, n: nat, k: nat)
    requires Agree(a, b, n) && k <= n
    ensures Agree(a, b, k)
  {
  }

  lemma {:induction false} SharedHere(h: Hasher, seed: int, a: seq<int>, b: seq<int>, size: nat, m: nat, x: int, i: nat)
    requires size > 0 && Collisionless(h, seed) && Agree(a, b, Times(m, size)) && HashOf(h, seed, a, m, size, x, i)
    requires m <= Chunks(a, size) && m <= Chunks(b, size)
    ensures IsHash(h, seed, a, Chunks(a, size), size, x) && IsHash(h, seed, b, Chunks(b, size), size, x)
  {
    FitsChunks(b, size, i + 1);
    TimesGrows(i + 1, m, size);
    AgreeLess(a, b, Times(m, size), Times(i + 1, size));
    SameHashIff(h, seed, a, i + 1, b, i + 1, size);
    assert HashOf(h, seed, a, Chunks(a, size), size, x, i);
    assert HashOf(h, seed, b, Chunks(b, size), size, x, i);
  }

  lemma {:induction false} SharedOnly(h: Hasher, seed: int, a: seq<int>, b: seq<int>, size: nat, m: nat, x: int, i: nat, j: nat)
    requires size > 0 && Collisionless(h, seed) && m <= Chunks(a, size)
    requires Fits(a, m + 1, size) && Fits(b, m + 1, size) ==> !Agree(a, b, Times(m + 1, size))
    requires HashOf(h, seed, a, Chunks(a, size), size, x, i) && HashOf(h, seed, b, Chunks(b, size), size, x, j)
    ensures IsHash(h, seed, a, m, size, x)
  {
    SameHashIff(h, seed, a, i + 1, b, j + 1, size);
    if i >= m {
      FitsLess(a, m + 1, i + 1, size);
      FitsLess(b, m + 1, i + 1, size);
      TimesGrows(m + 1, i + 1, size);
      AgreeLess(a, b, Times(i + 1, size), Times(m + 1, size));
    }
    assert HashOf(h, seed, a, m, size, x, i);
  }

  /** So the number of shared hashes is the number of whole chunks in the common prefix. */
  lemma {:induction false} SharedCount(h: Hasher, seed: int, a: seq<int>, b: seq<int>, size: nat, m: nat)
    requires size > 0 && Collisionless(h, seed) && Fits(a, m, size) && Agree(a, b, Times(m, size))
    requires Fits(a, m + 1, size) && Fits(b, m + 1, size) ==> !Agree(a, b, Times(m + 1, size))
    ensures |Shared(h, seed, a, b, size)| == m
  {
    forall x: int
      ensures x in Shared(h, seed, a, b, size) <==> x in HashMap(h, seed, a, m, size).Keys
    {
      SharedKeys(h, seed, a, b, size, m, x);
    }
    assert Shared(h, seed, a, b, size) == HashMap(h, seed, a, m, size).Keys;
    MapSize(h, seed, a, m, size);
  }

  // ---- partial prompts ----

  /** A token of the vocabulary other than `original`, unless the vocabulary is too small. */
  function DifferentToken(vocabulary: int, original: int): Option<int> {
    if vocabulary < 2 then None
    else
      var candidate := (original + 1) % vocabulary;
      Some(if candidate == original then (original + 2) % vocabulary else candidate)
  }

  function Replacement(vocabulary: int, original: int, variant: int): Option<int> {
    match DifferentToken(vocabulary, original)
    case None => None
    case Some(r) => if variant % 2 != 0 then DifferentToken(vocabulary, r) else Some(r)
  }

  function MakePartialPrompt(base: seq<int>, split: int, vocabulary: int, variant: int): Option<seq<int>> {
    if !(0 < split < |base|) then None
    else
      match Replacement(vocabulary, base[split], variant)
      case None => None
      case Some(r) => Some(base[split := r])
  }

  lemma {:induction false} NextToken(v: int, x: int)
    requires v >= 2
    ensures 0 <= (x + 1) % v < v && (x + 1) % v != x
    ensures 0 <= x < v ==> (x + 1) % v == if x + 1 == v then 0 else x + 1
  {
  }

  /** Where the second replacement leads back to the first token. */
  predicate Undone(vocabulary: int, original: int, variant: int) {
    variant % 2 != 0 && vocabulary == 2 && 0 <= original < vocabulary
  }

  /** The replacement is the original token exactly for odd variants over two tokens. */
  lemma {:induction false} ReplacementDiffers(vocabulary: int, original: int, variant: int)
    ensures Replacement(vocabulary, original, variant).None? <==> vocabulary < 2
    ensures vocabulary >= 2
            ==> (Replacement(vocabulary, original, variant).value == original <==> Undone(vocabulary, original, variant))
  {
    if vocabulary >= 2 {
      NextToken(vocabulary, original);
      NextToken(vocabulary, (original + 1) % vocabulary);
    }
  }

  /**
   A partial prompt shares with its base exactly the chunks that end before the split, or, in
   the one case where the token comes out unchanged, all of them.
   */
  lemma {:induction false} PartialPromptShares(h: Hasher, seed: int, base: seq<int>, split: int, vocabulary: int, variant: int, size: nat)
    requires size > 0 && Collisionless(h, seed) && MakePartialPrompt(base, split, vocabulary, variant).Some?
    ensures var p := MakePartialPrompt(base, split, vocabulary, variant).value;
            && |p| == |base| && (forall k | 0 <= k < |base| && k != split :: p[k] == base[k])
            && |Shared(h, seed, base, p, size)|
               == if Undone(vocabulary, base[split], variant) then |base| / size else split / size
  {
    var p := MakePartialPrompt(base, split, vocabulary, variant).value;
    ReplacementDiffers(vocabulary, base[split], variant);
    if p[split] == base[split] {
      assert p == base;
      BoundDivides(|base|, size);
      SharedCount(h, seed, base, p, size, |base| / size);
    } else {
      BoundDivides(split, size);
      SharedCount(h, seed, base, p, size, split / size);
    }
  }

  /** With two tokens, an odd variant is the base prompt itself. */
  lemma {:induction false} UndoneIsBase(base: seq<int>, split: int, variant: int)
    requires 0 < split < |base| && 0 <= base[split] < 2 && variant % 2 != 0
    ensures MakePartialPrompt(base, split, 2, variant) == Some(base)
  {
    ReplacementDiffers(2, base[split], variant);
    assert base[split := base[split]] == base;
  }
}
