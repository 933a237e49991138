/** Precision plans over flattened (layer, key or value, token) cells, and the two layouts of a KV tensor. */
module KvPlan {
  import opened Arithmetic

  /** A place determines its row and its place in the row. */
  lemma {:induction false} RowUnique(m: nat, x: nat, n: nat, y: nat, size: nat)
    requires x < size && y < size && Times(m, size) + x == Times(n, size) + y
    ensures m == n && x == y
  {
    TimesNext(m, size);
    TimesNext(n, size);
    if m < n {
      TimesGrows(m + 1, n, size);
    } else if n < m {
      TimesGrows(n + 1, m, size);
    }
  }

  lemma {:induction false} InBounds(m: nat, x: nat, n: nat, size: nat)
    requires m < n && x < size
    ensures Times(m, size) + x < Times(n, size)
  {
    TimesNext(m, size);
    TimesGrows(m + 1, n, size);
  }

  // ---- promotion ----

  /** Token `t` is selected; tokens outside the chunk are ignored. */
  predicate Selected(tokens: seq<int>, k: nat, t: int)
    requires k <= |tokens|
  {
    k > 0 && (tokens[k - 1] == t || Selected(tokens, k - 1, t))
  }

  lemma {:induction false} SelectedIff(tokens: seq<int>, k: nat, t: int)
    requires k <= |tokens|
    ensures Selected(tokens, k, t) <==> exists i :: 0 <= i < k && tokens[i] == t
    decreases k
  {
    if k > 0 {
      SelectedIff(tokens, k - 1, t);
    }
  }

  /** What cell `(row, t)` is after the first `r` rows and `k` tokens of the next have been promoted. */
  predicate Promotes(ids: seq<int>, ids': seq<int>, rows: nat, length: nat, tokens: seq<int>, r: nat, k: nat)
    requires k <= |tokens|
  {
    && |ids| == |ids'| == Times(rows, length)
    && forall row: nat, t: nat | row < rows && t < length :: CellPromoted(ids, ids', length, tokens, r, k, row, t)
  }

  predicate CellPromoted(ids: seq<int>, ids': seq<int>, length: nat, tokens: seq<int>, r: nat, k: nat, row: nat, t: nat)
    requires k <= |tokens|
  {
    var i := Times(row, length) + t;
    i < |ids| && i < |ids'|
    && ids'[i] == if Selected(tokens, if row < r then |tokens| else if row == r then k else 0, t) then 0 else ids[i]
  }

  lemma {:induction false} NothingPromoted(ids: seq<int>, rows: nat, length: nat, tokens: seq<int>)
    requires |ids| == Times(rows, length)
    ensures Promotes(ids, ids, rows, length, tokens, 0, 0)
  {
    forall row: nat, t: nat | row < rows && t < length
      ensures CellPromoted(ids, ids, length, tokens, 0, 0, row, t)
    {
      InBounds(row, t, rows, length);
    }
  }

  lemma {:induction false} PromoteOne(ids: seq<int>, ids': seq<int>, rows: nat, length: nat, tokens: seq<int>, r: nat, k: nat)
    requires r < rows && k < |tokens| && Promotes(ids, ids', rows, length, tokens, r, k)
    ensures 0 <= tokens[k] < length ==> Times(r, length) + tokens[k] < |ids'|
    ensures Promotes(ids, if 0 <= tokens[k] < length then ids'[Times(r, length) + tokens[k] := 0] else ids',
                     rows, length, tokens, r, k + 1)
  {
    var token := tokens[k];
    if 0 <= token < length {
      InBounds(r, token, rows, length);
    }
    var after := if 0 <= token < length then ids'[Times(r, length) + token := 0] else ids';
    var next := k + 1;
    forall row: nat, t: nat | row < rows && t < length
      ensures CellPromoted(ids, after, length, tokens, r, next, row, t)
    {
      assert CellPromoted(ids, ids', length, tokens, r, k, row, t);
      if 0 <= token < length && Times(row, length) + t == Times(r, length) + token {
        RowUnique(row, t, r, token, length);
      }
    }
  }

  lemma {:induction false} RowDone(ids: seq<int>, ids': seq<int>, rows: nat, length: nat, tokens: seq<int>, r: nat)
    requires Promotes(ids, ids', rows, length, tokens, r, |tokens|)
    ensures Promotes(ids, ids', rows, length, tokens, r + 1, 0)
  {
    var next := r + 1;
    forall row: nat, t: nat | row < rows && t < length
      ensures CellPromoted(ids, ids', length, tokens, next, 0, row, t)
    {
      assert CellPromoted(ids, ids', length, tokens, r, |tokens|, row, t);
    }
  }

  /** Set the cells of the selected tokens, in every layer and for keys and values, to the highest precision. */
  method Promote(ids: seq<int>, layers: nat, length: nat, tokens: seq<int>) returns (promoted: seq<int>)
    requires |ids| == Times(2 * layers, length)
    ensures Promotes(ids, promoted, 2 * layers, length, tokens, 2 * layers, 0)
  {
    promoted := ids;
    NothingPromoted(ids, 2 * layers, length, tokens);
    for layer := 0 to layers
      invariant Promotes(ids, promoted, 2 * layers, length, tokens, 2 * layer, 0)
    {
      for kv := 0 to 2
        invariant Promotes(ids, promoted, 2 * layers, length, tokens, 2 * layer + kv, 0)
      {
        for k := 0 to |tokens|
          invariant Promotes(ids, promoted, 2 * layers, length, tokens, 2 * layer + kv, k)
        {
          PromoteOne(ids, promoted, 2 * layers, length, tokens, 2 * layer + kv, k);
          if 0 <= tokens[k] < length {
            var index := (layer * 2 + kv) * length + tokens[k];
            assert index == Times(2 * layer + kv, length) + tokens[k];
            promoted := promoted[index := 0];
          }
        }
        RowDone(ids, promoted, 2 * layers, length, tokens, 2 * layer + kv);
      }
    }
  }

  /** Promotion: the selected cells are zero and every other cell is as before. */
  predicate Promotion(ids: seq<int>, ids': seq<int>, rows: nat, length: nat, tokens: seq<int>) {
    Promotes(ids, ids', rows, length, tokens, rows, 0)
  }

  lemma {:induction false} SelectedConcat(a: seq<int>, b: seq<int>, t: int)
    ensures Selected(a + b, |a + b|, t) <==> Selected(a, |a|, t) || Selected(b, |b|, t)
  {
    SelectedIff(a + b, |a + b|, t);
    SelectedIff(a, |a|, t);
    SelectedIff(b, |b|, t);
    if i :| 0 <= i < |a| && a[i] == t {
      assert (a + b)[i] == t;
    }
    if i :| 0 <= i < |b| && b[i] == t {
      assert (a + b)[|a| + i] == t;
    }
  }

  /** Promoting some tokens and then others is promoting all of them. */
  lemma {:induction false} PromoteBoth(ids: seq<int>, first: seq<int>, both: seq<int>, rows: nat, length: nat, a: seq<int>, b: seq<int>)
    requires Promotion(ids, first, rows, length, a) && Promotion(first, both, rows, length, b)
    ensures Promotion(ids, both, rows, length, a + b)
  {
    forall row: nat, t: nat | row < rows && t < length
      ensures CellPromoted(ids, both, length, a + b, rows, 0, row, t)
    {
      assert CellPromoted(ids, first, length, a, rows, 0, row, t);
      assert CellPromoted(first, both, length, b, rows, 0, row, t);
      SelectedConcat(a, b, t);
    }
  }

  // ---- layouts ----

  lemma {:induction false} DivModOf(q: nat, r: nat, d: nat)
    requires r < d
    ensures (Times(q, d) + r) / d == q && (Times(q, d) + r) % d == r
  {
    var x := Times(q, d) + r;
    assert x == Times(x / d, d) + x % d;
    RowUnique(x / d, x % d, q, r, d);
  }

  /** The wire row of key or value `kv` of layer `l` as a canonical row, and back. */
  function CanonicalRow(wire: nat, layers: nat): nat
    requires wire < 2 * layers
  {
    wire % layers * 2 + wire / layers
  }

  function WireRow(canonical: nat, layers: nat): nat {
    Times(canonical % 2, layers) + canonical / 2
  }

  lemma {:induction false} Halves(q: nat, n: nat)
    requires q < 2 * n
    ensures q / n < 2 && q == Times(q / n, n) + q % n
  {
    var d: nat := q / n;
    assert q == Times(d, n) + q % n;
    if d >= 2 {
      TimesGrows(2, d, n);
    }
  }

  /** Key or value `kv` of layer `l`, in either order. */
  lemma {:induction false} RowOf(kv: nat, l: nat, layers: nat)
    requires kv < 2 && l < layers
    ensures Times(kv, layers) + l < 2 * layers && CanonicalRow(Times(kv, layers) + l, layers) == l * 2 + kv
    ensures WireRow(l * 2 + kv, layers) == Times(kv, layers) + l
  {
    InBounds(kv, l, 2, layers);
    DivModOf(kv, l, layers);
    assert (l * 2 + kv) % 2 == kv && (l * 2 + kv) / 2 == l;
  }

  lemma {:induction false} RowsInverse(row: nat, layers: nat)
    requires row < 2 * layers
    ensures CanonicalRow(row, layers) < 2 * layers && WireRow(CanonicalRow(row, layers), layers) == row
    ensures WireRow(row, layers) < 2 * layers && CanonicalRow(WireRow(row, layers), layers) == row
  {
    FromWire(row, layers);
    RowOf(row % 2, row / 2, layers);
  }

  lemma {:induction false} FromWire(row: nat, layers: nat)
    requires row < 2 * layers
    ensures CanonicalRow(row, layers) < 2 * layers && WireRow(CanonicalRow(row, layers), layers) == row
  {
    Halves(row, layers);
    RowOf(row / layers, row % layers, layers);
  }

  /** Rows of `size` elements, taken in another order. */
  function Rearranged<T>(s: seq<T>, rows: nat, size: nat, source: nat -> nat): seq<T>
    requires |s| == Times(rows, size) && forall r: nat | r < rows :: source(r) < rows
  {
    seq(|s|, i requires 0 <= i < |s| => ElementAt(s, rows, size, source, i))
  }

  function ElementAt<T>(s: seq<T>, rows: nat, size: nat, source: nat -> nat, i: nat): T
    requires |s| == Times(rows, size) && i < |s| && forall r: nat | r < rows :: source(r) < rows
  {
    Split(i, rows, size);
    InBounds(source(i / size), i % size, rows, size);
    s[Times(source(i / size), size) + i % size]
  }

  lemma {:induction false} NoSize(rows: nat)
    ensures Times(rows, 0) == 0
  {
  }

  lemma {:induction false} Split(i: nat, rows: nat, size: nat)
    requires i < Times(rows, size)
    ensures size > 0 && i / size < rows && i == Times(i / size, size) + i % size
  {
    NoSize(rows);
    var d: nat := i / size;
    assert i == Times(d, size) + i % size;
    if d >= rows {
      TimesGrows(rows, d, size);
    }
  }

  lemma {:induction false} RearrangedAt<T>(s: seq<T>, rows: nat, size: nat, source: nat -> nat, r: nat, x: nat)
    requires |s| == Times(rows, size) && r < rows && x < size && forall r: nat | r < rows :: source(r) < rows
    ensures Times(r, size) + x < |s| && Times(source(r), size) + x < |s|
    ensures Rearranged(s, rows, size, source)[Times(r, size) + x] == s[Times(source(r), size) + x]
  {
    InBounds(r, x, rows, size);
    InBounds(source(r), x, rows, size);
    DivModOf(r, x, size);
  }

  /** Rearranging by a map and then by its inverse restores the sequence. */
  lemma {:induction false} RearrangedBack<T>(s: seq<T>, rows: nat, size: nat, f: nat -> nat, g: nat -> nat)
    requires |s| == Times(rows, size)
    requires forall r: nat | r < rows :: f(r) < rows && g(r) < rows && f(g(r)) == r
    ensures Rearranged(Rearranged(s, rows, size, f), rows, size, g) == s
  {
    var t := Rearranged(s, rows, size, f);
    forall i: nat | i < |s|
      ensures Rearranged(t, rows, size, g)[i] == s[i]
    {
      Split(i, rows, size);
      RearrangedAt(t, rows, size, g, i / size, i % size);
      RearrangedAt(s, rows, size, f, g(i / size), i % size);
    }
  }

  function ToCanonicalRow(layers: nat): nat -> nat {
    (r: nat) => if r < 2 * layers then CanonicalRow(r, layers) else r
  }

  function ToWireRow(layers: nat): nat -> nat {
    (r: nat) => if r < 2 * layers then WireRow(r, layers) else r
  }

  lemma {:induction false} RowBounds(layers: nat)
    ensures forall r: nat | r < 2 * layers :: ToCanonicalRow(layers)(r) < 2 * layers
    ensures forall r: nat | r < 2 * layers :: ToWireRow(layers)(r) < 2 * layers
  {
    forall r: nat | r < 2 * layers
      ensures ToCanonicalRow(layers)(r) < 2 * layers && ToWireRow(layers)(r) < 2 * layers
    {
      RowsInverse(r, layers);
    }
  }

  lemma {:induction false} RowMaps(layers: nat)
    ensures forall r: nat | r < 2 * layers :: ToCanonicalRow(layers)(r) < 2 * layers && ToWireRow(layers)(r) < 2 * layers
    ensures forall r: nat | r < 2 * layers :: ToCanonicalRow(layers)(ToWireRow(layers)(r)) == r
    ensures forall r: nat | r < 2 * layers :: ToWireRow(layers)(ToCanonicalRow(layers)(r)) == r
  {
    forall r: nat | r < 2 * layers
      ensures ToCanonicalRow(layers)(r) < 2 * layers && ToWireRow(layers)(r) < 2 * layers
      ensures ToCanonicalRow(layers)(ToWireRow(layers)(r)) == r && ToWireRow(layers)(ToCanonicalRow(layers)(r)) == r
    {
      RowsInverse(r, layers);
    }
  }

  /** From `[layer, kv, token, head, dim]` to `[kv, layer, token, head * dim]`, rows of `size` elements. */
  function CanonicalToWire<T>(c: seq<T>, layers: nat, size: nat): seq<T>
    requires |c| == Times(2 * layers, size)
  {
    RowBounds(layers);
    Rearranged(c, 2 * layers, size, ToCanonicalRow(layers))
  }

  function WireToCanonical<T>(w: seq<T>, layers: nat, size: nat): seq<T>
    requires |w| == Times(2 * layers, size)
  {
    RowBounds(layers);
    Rearranged(w, 2 * layers, size, ToWireRow(layers))
  }

  /** The two conversions undo each other, for all dimensions. */
  lemma {:induction false} LayoutsInverse<T>(s: seq<T>, layers: nat, size: nat)
    requires |s| == Times(2 * layers, size)
    ensures WireToCanonical(CanonicalToWire(s, layers, size), layers, size) == s
    ensures CanonicalToWire(WireToCanonical(s, layers, size), layers, size) == s
  {
    RowMaps(layers);
    RearrangedBack(s, 2 * layers, size, ToCanonicalRow(layers), ToWireRow(layers));
    RearrangedBack(s, 2 * layers, size, ToWireRow(layers), ToCanonicalRow(layers));
  }

  lemma {:induction false} WireRowAt<T>(c: seq<T>, layers: nat, size: nat, w: nat, x: nat)
    requires |c| == Times(2 * layers, size) && w < 2 * layers && x < size
    ensures CanonicalRow(w, layers) < 2 * layers
    ensures Times(w, size) + x < |c| && Times(CanonicalRow(w, layers), size) + x < |c|
    ensures CanonicalToWire(c, layers, size)[Times(w, size) + x] == c[Times(CanonicalRow(w, layers), size) + x]
  {
    RowBounds(layers);
    RowsInverse(w, layers);
    RearrangedAt(c, 2 * layers, size, ToCanonicalRow(layers), w, x);
  }

  /** Element by element: `(kv, l, x)` on the wire is `(l, kv, x)` in the canonical layout. */
  lemma {:induction false} WireElement<T>(c: seq<T>, layers: nat, size: nat, kv: nat, l: nat, x: nat, w: nat, p: nat)
    requires |c| == Times(2 * layers, size) && kv < 2 && l < layers && x < size
    requires w == Times(kv, layers) + l && p == Times(l, 2) + kv
    ensures Times(w, size) + x < |c| && Times(p, size) + x < |c|
    ensures CanonicalToWire(c, layers, size)[Times(w, size) + x] == c[Times(p, size) + x]
  {
    RowOf(kv, l, layers);
    WireRowAt(c, layers, size, w, x);
  }
}
