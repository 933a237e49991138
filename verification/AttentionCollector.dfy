/** The streaming collector of attention scores: layers one after the other, rows in chunks. */
module AttentionCollector {
  import opened Text
  import opened Arithmetic
  import opened AttentionSums

  datatype Aggregation = IncomingMean | IncomingSum | IncomingBoth | FutureBoth | LastQuery

  type Scores = seq<real>

  // ---- what a chunk contributes ----

  /** There are heads to average over, or only sums are asked for. */
  predicate Averages(g: Aggregation, heads: nat) {
    heads > 0 || g.FutureBoth? || g.IncomingBoth?
  }

  /** What rows `a` to `b` of a layer give token `k`, when row `start` is the first of `at`. */
  function Mass(g: Aggregation, window: Option<int>, mask: Option<seq<bool>>, at: Terms, heads: nat, start: nat, n: nat, k: nat): real
    requires Averages(g, heads)
  {
    match g
    case FutureBoth => HeadSum(Masked(at, window, mask, start), heads, 0, n, k)
    case IncomingBoth => HeadSum(at, heads, 0, n, k)
    case _ => HeadSum(at, heads, 0, n, k) / heads as real
  }

  /** The mean over the heads of the last row. */
  function LastRow(at: Terms, heads: nat, n: nat, k: nat): real
    requires heads > 0 && n > 0
  {
    HeadSum(at, heads, n - 1, n, k) / heads as real
  }

  function ChunkScores(g: Aggregation, window: Option<int>, mask: Option<seq<bool>>, c: Tensor, start: nat): Scores
    requires Averages(g, c.heads)
  {
    seq(c.keys, k requires 0 <= k < c.keys => Mass(g, window, mask, c.at, c.heads, start, c.queries, k))
  }

  function LastScores(c: Tensor): Scores
    requires c.heads > 0 && c.queries > 0
  {
    seq(c.keys, k requires 0 <= k < c.keys => LastRow(c.at, c.heads, c.queries, k))
  }

  function ChunkCounts(window: Option<int>, mask: Option<seq<bool>>, c: Tensor, start: nat): seq<int> {
    seq(c.keys, k requires 0 <= k < c.keys => Seen(window, mask, start, start + c.queries, k) * c.heads)
  }

  function Add(a: Option<Scores>, b: Scores): Scores
    requires a.Some? ==> |a.value| == |b|
  {
    if a.None? then b else seq(|b|, k requires 0 <= k < |b| => a.value[k] + b[k])
  }

  function AddCounts(a: Option<seq<int>>, b: seq<int>): seq<int>
    requires a.Some? ==> |a.value| == |b|
  {
    if a.None? then b else seq(|b|, k requires 0 <= k < |b| => a.value[k] + b[k])
  }

  /** Each score divided by the number of queries from the token on. */
  function PerVisibleQuery(s: Scores): Scores {
    seq(|s|, k requires 0 <= k < |s| => s[k] / (|s| - k) as real)
  }

  // ---- chunks of a layer ----

  /** Rows `a` to `b` of a layer. */
  function Slice(t: Tensor, a: nat, b: nat): Tensor
    requires a <= b <= t.queries
  {
    Tensor(t.heads, b - a, t.keys, (h: nat, i: nat, k: nat) => t.at(h, a + i, k))
  }

  lemma {:induction false} AddQuotients(x: real, y: real, z: real, h: real)
    requires x == y + z && h > 0.0
    ensures x / h == y / h + z / h
  {
  }

  lemma {:induction false} SumOfSlice(t: Terms, u: Terms, heads: nat, a: nat, b: nat, k: nat)
    requires a <= b && Shifted(t, u, a, b - a)
    ensures HeadSum(t, heads, 0, b, k) == HeadSum(t, heads, 0, a, k) + HeadSum(u, heads, 0, b - a, k)
  {
    HeadSumShift(t, u, heads, a, b - a, k);
    HeadSumSplit(t, heads, 0, a, b, k);
  }

  /** The mass of the first `b` rows is that of the first `a` and that of the chunk between. */
  lemma {:induction false} MassOfChunk(g: Aggregation, window: Option<int>, mask: Option<seq<bool>>, t: Tensor, a: nat, b: nat, k: nat)
    requires Averages(g, t.heads) && a <= b <= t.queries
    ensures Mass(g, window, mask, t.at, t.heads, 0, b, k)
            == Mass(g, window, mask, t.at, t.heads, 0, a, k)
               + Mass(g, window, mask, Slice(t, a, b).at, t.heads, a, b - a, k)
  {
    var c := Slice(t, a, b);
    if g.FutureBoth? {
      SumOfSlice(Masked(t.at, window, mask, 0), Masked(c.at, window, mask, a), t.heads, a, b, k);
    } else {
      SumOfSlice(t.at, c.at, t.heads, a, b, k);
      if !g.IncomingBoth? {
        AddQuotients(HeadSum(t.at, t.heads, 0, b, k), HeadSum(t.at, t.heads, 0, a, k),
                     HeadSum(c.at, t.heads, 0, b - a, k), t.heads as real);
      }
    }
  }

  /** The scores of the first `b` rows of a layer. */
  function FrontScores(g: Aggregation, window: Option<int>, mask: Option<seq<bool>>, t: Tensor, b: nat): Scores
    requires Averages(g, t.heads) && b <= t.queries
  {
    ChunkScores(g, window, mask, Slice(t, 0, b), 0)
  }

  function FrontCounts(window: Option<int>, mask: Option<seq<bool>>, t: Tensor, b: nat): seq<int>
    requires b <= t.queries
  {
    ChunkCounts(window, mask, Slice(t, 0, b), 0)
  }

  lemma {:induction false} FrontMass(g: Aggregation, window: Option<int>, mask: Option<seq<bool>>, t: Tensor, b: nat, k: nat)
    requires Averages(g, t.heads) && b <= t.queries
    ensures Mass(g, window, mask, Slice(t, 0, b).at, t.heads, 0, b, k) == Mass(g, window, mask, t.at, t.heads, 0, b, k)
  {
    MassOfChunk(g, window, mask, t, 0, b, k);
    EmptySums(t.heads, t.at, k);
    EmptySums(t.heads, Masked(t.at, window, mask, 0), k);
  }

  lemma {:induction false} EmptySums(heads: nat, t: Terms, k: nat)
    ensures HeadSum(t, heads, 0, 0, k) == 0.0
    decreases heads
  {
    if heads > 0 {
      EmptySums(heads - 1, t, k);
    }
  }

  /** Adding a chunk to the scores of the rows before it gives the scores of all rows up to it. */
  lemma {:induction false} FrontAdd(g: Aggregation, window: Option<int>, mask: Option<seq<bool>>, t: Tensor, a: nat, b: nat)
    requires Averages(g, t.heads) && a <= b <= t.queries
    ensures Add(Some(FrontScores(g, window, mask, t, a)), ChunkScores(g, window, mask, Slice(t, a, b), a))
            == FrontScores(g, window, mask, t, b)
  {
    var sum := Add(Some(FrontScores(g, window, mask, t, a)), ChunkScores(g, window, mask, Slice(t, a, b), a));
    forall k: nat | k < t.keys
      ensures sum[k] == FrontScores(g, window, mask, t, b)[k]
    {
      FrontMass(g, window, mask, t, a, k);
      FrontMass(g, window, mask, t, b, k);
      MassOfChunk(g, window, mask, t, a, b, k);
    }
  }

  lemma {:induction false} TimesHeads(x: int, y: int, z: int, heads: int)
    requires x == y + z
    ensures x * heads == y * heads + z * heads
  {
  }

  lemma {:induction false} FrontAddCounts(window: Option<int>, mask: Option<seq<bool>>, t: Tensor, a: nat, b: nat)
    requires a <= b <= t.queries
    ensures AddCounts(Some(FrontCounts(window, mask, t, a)), ChunkCounts(window, mask, Slice(t, a, b), a))
            == FrontCounts(window, mask, t, b)
  {
    var sum := AddCounts(Some(FrontCounts(window, mask, t, a)), ChunkCounts(window, mask, Slice(t, a, b), a));
    forall k: nat | k < t.keys
      ensures sum[k] == FrontCounts(window, mask, t, b)[k]
    {
      SeenSplit(window, mask, 0, a, b, k);
      TimesHeads(Seen(window, mask, 0, b, k), Seen(window, mask, 0, a, k), Seen(window, mask, a, b, k), t.heads);
    }
  }

  lemma {:induction false} WholeFront(g: Aggregation, window: Option<int>, mask: Option<seq<bool>>, t: Tensor)
    requires Averages(g, t.heads)
    ensures FrontScores(g, window, mask, t, t.queries) == ChunkScores(g, window, mask, t, 0)
    ensures FrontCounts(window, mask, t, t.queries) == ChunkCounts(window, mask, t, 0)
  {
    var s := FrontScores(g, window, mask, t, t.queries);
    forall k: nat | k < t.keys
      ensures s[k] == ChunkScores(g, window, mask, t, 0)[k]
    {
      FrontMass(g, window, mask, t, t.queries, k);
    }
  }

  lemma {:induction false} LastOfSlice(t: Tensor, a: nat)
    requires t.heads > 0 && a < t.queries
    ensures LastScores(Slice(t, a, t.queries)) == LastScores(t)
  {
    var c, n := Slice(t, a, t.queries), t.queries;
    forall k: nat | k < t.keys
      ensures LastScores(c)[k] == LastScores(t)[k]
    {
      HeadSumShift(t.at, c.at, t.heads, a, n - a, k);
      HeadSumShift(t.at, c.at, t.heads, a, n - a - 1, k);
      HeadSumSplit(c.at, t.heads, 0, n - a - 1, n - a, k);
      HeadSumSplit(t.at, t.heads, a, n - 1, n, k);
    }
  }

  // ---- the open layer ----

  /** What the chunks of a layer so far have left in the collector. */
  datatype Open = Open(score: Option<Scores>, visible: Option<seq<int>>, lastSeen: bool)
  {
    predicate Fits(n: nat) {
      (score.Some? ==> |score.value| == n) && (visible.Some? ==> |visible.value| == n)
    }
  }

  const Nothing := Open(None, None, false)

  /** A chunk added to an open layer of `n` tokens; None if it is refused. */
  function Chunk(g: Aggregation, window: Option<int>, mask: Option<seq<bool>>, o: Open, c: Tensor, start: int, n: nat): (r: Option<Open>)
    requires Averages(g, c.heads) && o.Fits(n)
    ensures r.Some? ==> r.value.Fits(n)
  {
    if start < 0 || start + c.queries > n || c.keys != n then None
    else if g.LastQuery? then
      if start + c.queries < n then Some(o)
      else if c.queries == 0 then None   // there is no last row to read
      else Some(o.(score := Some(LastScores(c)), lastSeen := true))
    else
      Some(o.(score := Some(Add(o.score, ChunkScores(g, window, mask, c, start))),
              visible := if g.FutureBoth? then Some(AddCounts(o.visible, ChunkCounts(window, mask, c, start))) else o.visible))
  }

  /** The open layer that the first `b` rows should leave. */
  function Front(g: Aggregation, window: Option<int>, mask: Option<seq<bool>>, t: Tensor, b: nat): Open
    requires Averages(g, t.heads) && t.queries > 0 && b <= t.queries
  {
    if g.LastQuery? then (if b < t.queries then Nothing else Open(Some(LastScores(t)), None, true))
    else Open(Some(FrontScores(g, window, mask, t, b)), if g.FutureBoth? then Some(FrontCounts(window, mask, t, b)) else None, false)
  }

  /** A chunk is refused only for want of a last row; otherwise it extends the rows covered. */
  lemma {:induction false} FrontChunk(g: Aggregation, window: Option<int>, mask: Option<seq<bool>>, t: Tensor, o: Open, a: nat, b: nat)
    requires Averages(g, t.heads) && 0 < t.queries == t.keys && a <= b <= t.queries
    requires o == Front(g, window, mask, t, a) || (a == 0 && o == Nothing)
    ensures Chunk(g, window, mask, o, Slice(t, a, b), a, t.keys)
            == if g.LastQuery? && a == t.queries then None else Some(Front(g, window, mask, t, b))
  {
    if g.LastQuery? {
      if a < b == t.queries {
        LastOfSlice(t, a);
      }
    } else if o != Nothing {
      FrontAdd(g, window, mask, t, a, b);
      FrontAddCounts(window, mask, t, a, b);
    }
  }

  // ---- any split of a layer into consecutive chunks ----

  /** Row where chunk `i` starts, for chunks of the given lengths. */
  function Cut(sizes: seq<nat>, i: nat): nat
    requires i <= |sizes|
  {
    if i == 0 then 0 else Cut(sizes, i - 1) + sizes[i - 1]
  }

  /** Chunks of the given lengths, one after the other, of which the first `i` have been added. */
  function Chunks(g: Aggregation, window: Option<int>, mask: Option<seq<bool>>, t: Tensor, sizes: seq<nat>, i: nat): (r: Option<Open>)
    requires Averages(g, t.heads) && i <= |sizes| && Cut(sizes, i) <= t.queries
    ensures r.Some? ==> r.value.Fits(t.keys)
  {
    if i == 0 then Some(Nothing)
    else
      match Chunks(g, window, mask, t, sizes, i - 1)
      case None => None
      case Some(o) => Chunk(g, window, mask, o, Slice(t, Cut(sizes, i - 1), Cut(sizes, i)), Cut(sizes, i - 1), t.keys)
  }

  lemma {:induction false} ChunksFront(g: Aggregation, window: Option<int>, mask: Option<seq<bool>>, t: Tensor, sizes: seq<nat>, i: nat)
    requires Averages(g, t.heads) && 0 < t.queries == t.keys && 0 < i <= |sizes| && Cut(sizes, i) <= t.queries
    ensures Chunks(g, window, mask, t, sizes, i)
            == if g.LastQuery? && Cut(sizes, i - 1) == t.queries then None else Some(Front(g, window, mask, t, Cut(sizes, i)))
    decreases i
  {
    if i > 1 {
      ChunksFront(g, window, mask, t, sizes, i - 1);
      if g.LastQuery? && Cut(sizes, i - 2) == t.queries {
        return;
      }
      FrontChunk(g, window, mask, t, Front(g, window, mask, t, Cut(sizes, i - 1)), Cut(sizes, i - 1), Cut(sizes, i));
    } else {
      FrontChunk(g, window, mask, t, Nothing, 0, Cut(sizes, 1));
    }
  }

  /** What a layer leaves when all its rows come as one chunk. */
  function Whole(g: Aggregation, window: Option<int>, mask: Option<seq<bool>>, t: Tensor): Open
    requires Averages(g, t.heads) && t.queries > 0
  {
    Open(Some(if g.LastQuery? then LastScores(t) else ChunkScores(g, window, mask, t, 0)),
         if g.FutureBoth? then Some(ChunkCounts(window, mask, t, 0)) else None, g.LastQuery?)
  }

  lemma {:induction false} FrontWhole(g: Aggregation, window: Option<int>, mask: Option<seq<bool>>, t: Tensor)
    requires Averages(g, t.heads) && t.queries > 0
    ensures Front(g, window, mask, t, t.queries) == Whole(g, window, mask, t)
  {
    WholeFront(g, window, mask, t);
  }

  /**
   However the rows are split into consecutive chunks, empty ones included, the open layer is
   the one that the whole layer leaves; only the last query's score cannot be taken from a
   last chunk that is empty.
   */
  lemma {:induction false} SplitDoesNotMatter(g: Aggregation, window: Option<int>, mask: Option<seq<bool>>, t: Tensor, sizes: seq<nat>)
    requires Averages(g, t.heads) && 0 < t.queries == t.keys && sizes != [] && Cut(sizes, |sizes|) == t.queries
    ensures Chunks(g, window, mask, t, sizes, |sizes|)
            == if g.LastQuery? && sizes[|sizes| - 1] == 0 then None else Some(Whole(g, window, mask, t))
  {
    ChunksFront(g, window, mask, t, sizes, |sizes|);
    FrontWhole(g, window, mask, t);
  }

  // ---- the collector ----

  /** What one layer contributes to the score. */
  function LayerScores(g: Aggregation, raw: Scores): Scores {
    if g.IncomingMean? then PerVisibleQuery(raw) else raw
  }

  class Collector {
    const tokenCount: nat
    const aggregation: Aggregation
    const mask: Option<seq<bool>>
    var score: Option<Scores>
    var rawScore: Option<Scores>
    var layerScore: Option<Scores>
    var layerVisible: Option<seq<int>>
    var visible: Option<seq<int>>
    var lastQuerySeen: bool
    var layerCount: nat
    var window: Option<int>

    ghost predicate Valid()
      reads this
    {
      && tokenCount > 0
      && (score.Some? ==> |score.value| == tokenCount) && (rawScore.Some? ==> |rawScore.value| == tokenCount)
      && (layerScore.Some? ==> |layerScore.value| == tokenCount) && (visible.Some? ==> |visible.value| == tokenCount)
      && (layerVisible.Some? ==> |layerVisible.value| == tokenCount)
      && (aggregation.FutureBoth? && layerScore.Some? ==> layerVisible.Some?)
    }

    constructor (tokenCount: nat, aggregation: Aggregation, mask: Option<seq<bool>>)
      requires tokenCount > 0 && (mask.Some? ==> |mask.value| == tokenCount)
      ensures Valid() && layerScore == None && rawScore == None && score == None && visible == None && layerCount == 0
      ensures this.tokenCount == tokenCount && this.aggregation == aggregation && this.mask == mask
    {
      this.tokenCount, this.aggregation, this.mask := tokenCount, aggregation, mask;
      score, rawScore, layerScore, layerVisible, visible := None, None, None, None, None;
      lastQuerySeen, layerCount, window := false, 0, None;
    }

    method BeginLayer() returns (ok: bool)
      modifies this`lastQuerySeen, this`layerVisible
      ensures ok == (layerScore == None)
      ensures ok ==> !lastQuerySeen && layerVisible == None
      ensures !ok ==> lastQuerySeen == old(lastQuerySeen) && layerVisible == old(layerVisible)
    {
      if layerScore.Some? {
        return false;
      }
      lastQuerySeen, layerVisible := false, None;
      ok := true;
    }

    method SetSlidingWindow(w: Option<int>)
      modifies this`window
      ensures window == w
    {
      window := w;
    }

    /** The open layer. */
    function OpenLayer(): Open
      reads this
    {
      Open(layerScore, layerVisible, lastQuerySeen)
    }

    method AddQueryChunk(c: Tensor, start: int) returns (ok: bool)
      requires Valid() && Averages(aggregation, c.heads)
      modifies this`layerScore, this`layerVisible, this`lastQuerySeen
      ensures Valid()
      ensures var r := Chunk(aggregation, window, mask, old(OpenLayer()), c, start, tokenCount);
              ok == r.Some? && OpenLayer() == if ok then r.value else old(OpenLayer())
    {
      if start < 0 || start + c.queries > tokenCount || c.keys != tokenCount {
        return false;
      }
      ok := true;
      if aggregation.LastQuery? {
        if start + c.queries == tokenCount {
          if c.queries == 0 {
            return false;
          }
          layerScore, lastQuerySeen := Some(LastScores(c)), true;
        }
        return;
      }
      var chunkScore := ChunkScores(aggregation, window, mask, c, start);
      if aggregation.FutureBoth? {
        layerVisible := Some(AddCounts(layerVisible, ChunkCounts(window, mask, c, start)));
      }
      layerScore := Some(Add(layerScore, chunkScore));
    }

    /** Whether a layer can be closed. */
    predicate Ready()
      reads this
    {
      layerScore.Some? && (aggregation.LastQuery? ==> lastQuerySeen)
    }

    method FinishLayer() returns (ok: bool)
      requires Valid()
      modifies this`score, this`rawScore, this`visible, this`layerScore, this`layerVisible, this`lastQuerySeen, this`layerCount
      ensures Valid() && ok == old(Ready())
      ensures !ok ==> OpenLayer() == old(OpenLayer()) && score == old(score) && visible == old(visible) && layerCount == old(layerCount)
      ensures !ok ==> rawScore == old(rawScore)
      ensures old(Ready())
              ==> ok && layerScore == None && layerVisible == None && layerCount == old(layerCount) + 1
                  && rawScore == Some(Add(old(rawScore), old(layerScore).value))
                  && score == Some(Add(old(score), LayerScores(aggregation, old(layerScore).value)))
                  && visible == if aggregation.FutureBoth? then Some(AddCounts(old(visible), old(layerVisible).value)) else old(visible)
    {
      if layerScore.None? || (aggregation.LastQuery? && !lastQuerySeen) {
        return false;
      }
      var raw := layerScore.value;
      rawScore := Some(Add(rawScore, raw));
      if aggregation.FutureBoth? {   // the counts are there whenever the scores are
        visible := Some(AddCounts(visible, layerVisible.value));
      }
      score := Some(Add(score, LayerScores(aggregation, raw)));
      layerCount := layerCount + 1;
      layerScore, layerVisible, lastQuerySeen := None, None, false;
      ok := true;
    }

    /** The loop of a patched layer: chunk after chunk, the last one shorter. */
    method CollectLayer(t: Tensor, w: Option<int>, chunk: nat) returns (ok: bool)
      requires Valid() && layerScore == None && chunk > 0
      requires Averages(aggregation, t.heads) && t.queries == tokenCount && t.keys == tokenCount
      modifies this
      ensures Valid() && ok && window == w && layerScore == None && layerCount == old(layerCount) + 1
      ensures var whole := Whole(aggregation, w, mask, t);
              && rawScore == Some(Add(old(rawScore), whole.score.value))
              && score == Some(Add(old(score), LayerScores(aggregation, whole.score.value)))
              && visible == if aggregation.FutureBoth? then Some(AddCounts(old(visible), whole.visible.value)) else old(visible)
    {
      ok := BeginLayer();
      SetSlidingWindow(w);
      var start := 0;
      while start < tokenCount
        invariant Valid() && 0 <= start <= tokenCount && window == w
        invariant rawScore == old(rawScore) && score == old(score) && visible == old(visible) && layerCount == old(layerCount)
        invariant OpenLayer() == Front(aggregation, w, mask, t, start) || (start == 0 && OpenLayer() == Nothing)
      {
        var end := if start + chunk < tokenCount then start + chunk else tokenCount;
        FrontChunk(aggregation, w, mask, t, OpenLayer(), start, end);
        ok := AddQueryChunk(Slice(t, start, end), start);
        start := end;
      }
      FrontWhole(aggregation, w, mask, t);
      ok := FinishLayer();
    }

    /** Raw mass, its share of the visible observations, and their number. */
    method ResultFutureVariants() returns (r: Option<(Scores, Scores, seq<int>)>)
      requires Valid()
      ensures r.Some? <==> rawScore.Some? && visible.Some? && layerCount > 0
      ensures r.Some? ==> r.value == (rawScore.value, Normalized(rawScore.value, visible.value), visible.value)
    {
      if rawScore.None? || visible.None? || layerCount == 0 {
        return None;
      }
      r := Some((rawScore.value, Normalized(rawScore.value, visible.value), visible.value));
    }
  }

  function Normalized(raw: Scores, count: seq<int>): Scores
    requires |raw| == |count|
  {
    seq(|raw|, k requires 0 <= k < |raw| => raw[k] / Max(1, count[k]) as real)
  }

  // ---- all layers ----

  datatype Layer = Layer(weights: Tensor, window: Option<int>)

  predicate LayersFit(layers: seq<Layer>, n: nat) {
    forall i | 0 <= i < |layers| ::
      layers[i].weights.queries == n && layers[i].weights.keys == n
  }

  /** The strictly-future mass that token `k` receives in the first `i` layers. */
  function FutureMass(layers: seq<Layer>, mask: Option<seq<bool>>, n: nat, i: nat, k: nat): real
    requires i <= |layers|
  {
    if i == 0 then 0.0
    else
      var l := layers[i - 1];
      FutureMass(layers, mask, n, i - 1, k) + HeadSum(Masked(l.weights.at, l.window, mask, 0), l.weights.heads, 0, n, k)
  }

  /** How often token `k` is visible in the first `i` layers. */
  function FutureCount(layers: seq<Layer>, mask: Option<seq<bool>>, n: nat, i: nat, k: nat): int
    requires i <= |layers|
  {
    if i == 0 then 0
    else
      var l := layers[i - 1];
      FutureCount(layers, mask, n, i - 1, k) + Seen(l.window, mask, 0, n, k) * l.weights.heads
  }

  predicate Totals(c: Option<Scores>, v: Option<seq<int>>, layers: seq<Layer>, mask: Option<seq<bool>>, n: nat, i: nat)
    requires i <= |layers|
  {
    if i == 0 then c == None && v == None
    else
      && c.Some? && v.Some? && |c.value| == n && |v.value| == n
      && forall k: nat | k < n ::
           c.value[k] == FutureMass(layers, mask, n, i, k) && v.value[k] == FutureCount(layers, mask, n, i, k)
  }

  lemma {:induction false} TotalsNext(c: Option<Scores>, v: Option<seq<int>>, layers: seq<Layer>, mask: Option<seq<bool>>, n: nat, i: nat)
    requires i < |layers| && LayersFit(layers, n) && Totals(c, v, layers, mask, n, i)
    ensures var l := layers[i];
            Totals(Some(Add(c, ChunkScores(FutureBoth, l.window, mask, l.weights, 0))),
                   Some(AddCounts(v, ChunkCounts(l.window, mask, l.weights, 0))), layers, mask, n, i + 1)
  {
    var l := layers[i];
    assert l.weights.keys == n;
    forall k: nat | k < n
      ensures FutureMass(layers, mask, n, i + 1, k)
           == FutureMass(layers, mask, n, i, k) + Mass(FutureBoth, l.window, mask, l.weights.at, l.weights.heads, 0, n, k)
      ensures FutureCount(layers, mask, n, i + 1, k)
           == FutureCount(layers, mask, n, i, k) + Seen(l.window, mask, 0, n, k) * l.weights.heads
      ensures i == 0 ==> FutureMass(layers, mask, n, i, k) == 0.0 && FutureCount(layers, mask, n, i, k) == 0
    {
    }
  }

  /** What the collector has after the first `i` layers. */
  ghost predicate Collected(c: Collector, layers: seq<Layer>, mask: Option<seq<bool>>, n: nat, i: nat)
    requires i <= |layers|
    reads c
  {
    && c.Valid() && c.tokenCount == n && c.aggregation == FutureBoth && c.mask == mask
    && c.layerScore == None && c.layerCount == i && Totals(c.rawScore, c.visible, layers, mask, n, i)
  }

  method CollectNext(c: Collector, layers: seq<Layer>, mask: Option<seq<bool>>, n: nat, i: nat, chunk: nat)
    requires chunk > 0 && LayersFit(layers, n) && i < |layers| && Collected(c, layers, mask, n, i)
    modifies c
    ensures Collected(c, layers, mask, n, i + 1)
  {
    TotalsNext(c.rawScore, c.visible, layers, mask, n, i);
    var ok := c.CollectLayer(layers[i].weights, layers[i].window, chunk);
  }

  lemma {:induction false} TotalsSome(c: Option<Scores>, v: Option<seq<int>>, layers: seq<Layer>, mask: Option<seq<bool>>, n: nat, i: nat)
    requires i <= |layers| && Totals(c, v, layers, mask, n, i)
    ensures c.Some? == v.Some? == (i > 0)
  {
  }

  /** All layers of a model, in any chunk size, give the totals over layers, heads and later queries. */
  method CollectFuture(layers: seq<Layer>, n: nat, mask: Option<seq<bool>>, chunk: nat)
    returns (c: Collector, r: Option<(Scores, Scores, seq<int>)>)
    requires n > 0 && chunk > 0 && LayersFit(layers, n) && (mask.Some? ==> |mask.value| == n)
    ensures fresh(c) && Collected(c, layers, mask, n, |layers|)
    ensures r.Some? <==> layers != []
    ensures r.Some? ==> var (raw, normalized, count) := r.value;
                        c.rawScore == Some(raw) && c.visible == Some(count) && normalized == Normalized(raw, count)
  {
    c := new Collector(n, FutureBoth, mask);
    for i := 0 to |layers|
      invariant fresh(c) && Collected(c, layers, mask, n, i)
    {
      CollectNext(c, layers, mask, n, i, chunk);
    }
    TotalsSome(c.rawScore, c.visible, layers, mask, n, |layers|);
    r := c.ResultFutureVariants();
  }

  // ---- what the totals are ----

  /** Heads times the closed form of the visible rows, over the layers. */
  function VisibleTotal(layers: seq<Layer>, n: nat, i: nat, k: nat): int
    requires i <= |layers|
  {
    if i == 0 then 0 else VisibleTotal(layers, n, i - 1, k) + Visible(layers[i - 1].window, n, k) * layers[i - 1].weights.heads
  }

  /** Without a mask, the visible count is known in advance. */
  lemma {:induction false} VisibleCountClosed(layers: seq<Layer>, n: nat, i: nat, k: nat)
    requires i <= |layers|
    ensures FutureCount(layers, None, n, i, k) == VisibleTotal(layers, n, i, k)
    decreases i
  {
    if i > 0 {
      VisibleCountClosed(layers, n, i - 1, k);
      SeenClosed(layers[i - 1].window, n, k);
    }
  }

  /** Weights between zero and one give at most one unit of mass for each observation. */
  lemma {:induction false} MassWithinCount(layers: seq<Layer>, mask: Option<seq<bool>>, n: nat, i: nat, k: nat)
    requires i <= |layers| && forall j | 0 <= j < |layers| :: UnitTerms(layers[j].weights.at)
    ensures 0.0 <= FutureMass(layers, mask, n, i, k) <= FutureCount(layers, mask, n, i, k) as real
    decreases i
  {
    if i > 0 {
      MassWithinCount(layers, mask, n, i - 1, k);
      var l := layers[i - 1];
      HeadSumBound(l.weights.at, l.window, mask, l.weights.heads, n, k);
    }
  }

  lemma {:induction false} RatioUnit(x: real, c: int)
    requires 0.0 <= x <= c as real
    ensures Unit(x / Max(1, c) as real) && (c == 0 ==> x / Max(1, c) as real == 0.0)
  {
  }

  /** The normalised scores lie between zero and one, and are zero where nothing is visible. */
  lemma {:induction false} NormalizedUnit(raw: Scores, count: seq<int>, layers: seq<Layer>, mask: Option<seq<bool>>, n: nat)
    requires layers != [] && Totals(Some(raw), Some(count), layers, mask, n, |layers|)
    requires forall j | 0 <= j < |layers| :: UnitTerms(layers[j].weights.at)
    ensures forall k: nat | k < n ::
              Unit(Normalized(raw, count)[k]) && (count[k] == 0 ==> Normalized(raw, count)[k] == 0.0)
  {
    forall k: nat | k < n
      ensures Unit(Normalized(raw, count)[k]) && (count[k] == 0 ==> Normalized(raw, count)[k] == 0.0)
    {
      MassWithinCount(layers, mask, n, |layers|, k);
      RatioUnit(raw[k], count[k]);
    }
  }
}
