/**
 A table of requests in progress, as an insertion-ordered dictionary from request ids to
 statistics, under a stream of events: an event may open a request, change the requests it
 names, or harvest the table, which drops every request that is done.

 The table is compared with the life of each single request taken alone.
 */
module Requests {
  import opened Text
  import opened Counting

  datatype Row<T> = Row(id: nat, stats: T)

  datatype Rules<!E, !T> = Rules(
    harvests: E -> bool,
    opens: E -> Option<T>,       // the statistics of the request an event opens
    touch: (E, nat, T) -> T,     // what an event makes of an open request
    done: T -> bool)

  // ---- the dictionary ----

  /** Of the first `k` rows, those whose request is done, or those whose request is not. */
  function SelectIn<T>(t: seq<Row<T>>, k: nat, done: T -> bool, want: bool): seq<Row<T>>
    requires k <= |t|
  {
    if k == 0 then [] else SelectIn(t, k - 1, done, want) + If(done(t[k - 1].stats) == want, t[k - 1])
  }

  function If<T>(c: bool, x: T): seq<T> {
    if c then [x] else []
  }

  function Select<T>(t: seq<Row<T>>, done: T -> bool, want: bool): seq<Row<T>> {
    SelectIn(t, |t|, done, want)
  }

  function TouchedRow<E, T>(r: Rules<E, T>, row: Row<T>, e: E): Row<T> {
    Row(row.id, r.touch(e, row.id, row.stats))
  }

  function Touched<E, T>(r: Rules<E, T>, t: seq<Row<T>>, e: E): seq<Row<T>> {
    seq(|t|, i requires 0 <= i < |t| => TouchedRow(r, t[i], e))
  }

  function FindIn<T>(t: seq<Row<T>>, k: nat, id: nat): Option<T>
    requires k <= |t|
  {
    if k == 0 then None
    else if t[k - 1].id == id then Some(t[k - 1].stats)
    else FindIn(t, k - 1, id)
  }

  function Find<T>(t: seq<Row<T>>, id: nat): Option<T> {
    FindIn(t, |t|, id)
  }

  function Opened<E, T>(r: Rules<E, T>, e: E): Option<T> {
    if r.harvests(e) then None else r.opens(e)
  }

  function TableStep<E, T>(r: Rules<E, T>, t: seq<Row<T>>, next: nat, e: E): seq<Row<T>> {
    if r.harvests(e) then Select(t, r.done, false)
    else if r.opens(e).Some? then t + [Row(next, r.opens(e).value)]
    else Touched(r, t, e)
  }

  function NextStep<E, T>(r: Rules<E, T>, next: nat, e: E): nat {
    if Opened(r, e).Some? then next + 1 else next
  }

  // ---- runs ----

  /** How many requests the first `n` events open. */
  function Issued<E, T>(r: Rules<E, T>, es: seq<E>, n: nat): nat
    requires n <= |es|
  {
    if n == 0 then 0 else NextStep(r, Issued(r, es, n - 1), es[n - 1])
  }

  function TableAt<E, T>(r: Rules<E, T>, es: seq<E>, n: nat): seq<Row<T>>
    requires n <= |es|
  {
    if n == 0 then [] else TableStep(r, TableAt(r, es, n - 1), Issued(r, es, n - 1), es[n - 1])
  }

  /** What the event in place `n` hands over: the done requests, if it harvests. */
  function HarvestAt<E, T>(r: Rules<E, T>, es: seq<E>, n: nat): seq<Row<T>>
    requires n < |es|
  {
    if r.harvests(es[n]) then Select(TableAt(r, es, n), r.done, true) else []
  }

  function Harvested<E, T>(r: Rules<E, T>, es: seq<E>, n: nat): seq<Row<T>>
    requires n <= |es|
  {
    if n == 0 then [] else Harvested(r, es, n - 1) + HarvestAt(r, es, n - 1)
  }

  // ---- the life of one request ----

  datatype Life<T> = NotIssued | Active(stats: T) | Reported(stats: T, at: nat)

  function LifeStep<E, T>(r: Rules<E, T>, life: Life<T>, e: E, id: nat, next: nat, at: nat): Life<T> {
    match life
    case NotIssued => if next == id && Opened(r, e).Some? then Active(r.opens(e).value) else NotIssued
    case Active(v) =>
      if r.harvests(e) then (if r.done(v) then Reported(v, at) else life)
      else if r.opens(e).Some? then life
      else Active(r.touch(e, id, v))
    case Reported(_, _) => life
  }

  /** Request `id` after `n` events, whatever happens to the other requests. */
  function LifeAt<E, T>(r: Rules<E, T>, es: seq<E>, n: nat, id: nat): Life<T>
    requires n <= |es|
  {
    if n == 0 then NotIssued
    else LifeStep(r, LifeAt(r, es, n - 1, id), es[n - 1], id, Issued(r, es, n - 1), n - 1)
  }

  lemma {:induction false} IssuedIff<E, T>(r: Rules<E, T>, es: seq<E>, n: nat, id: nat)
    requires n <= |es|
    ensures LifeAt(r, es, n, id) != NotIssued <==> id < Issued(r, es, n)
  {
    if n > 0 {
      IssuedIff(r, es, n - 1, id);
    }
  }

  /** All requests after `n` events. */
  function LivesAt<E, T>(r: Rules<E, T>, es: seq<E>, n: nat): nat -> Life<T>
    requires n <= |es|
  {
    (id: nat) => LifeAt(r, es, n, id)
  }

  /** The active ones among the first `m` requests, in the order of issue. */
  function ActiveRows<T>(life: nat -> Life<T>, m: nat): seq<Row<T>> {
    if m == 0 then [] else ActiveRows(life, m - 1) + ActiveRow(life(m - 1), m - 1)
  }

  function ActiveRow<T>(life: Life<T>, id: nat): seq<Row<T>> {
    if life.Active? then [Row(id, life.stats)] else []
  }

  /** The first `m` requests with their latest statistics. */
  function AllRows<T>(life: nat -> Life<T>, m: nat): seq<Row<T>> {
    if m == 0 then [] else AllRows(life, m - 1) + AllRow(life(m - 1), m - 1)
  }

  function AllRow<T>(life: Life<T>, id: nat): seq<Row<T>> {
    if life.NotIssued? then [] else [Row(id, life.stats)]
  }

  // ---- the table holds exactly the active requests ----

  lemma {:induction false} SelectPrefix<T>(t: seq<Row<T>>, u: seq<Row<T>>, k: nat, done: T -> bool, want: bool)
    requires k <= |t|
    ensures SelectIn(t + u, k, done, want) == SelectIn(t, k, done, want)
    decreases k
  {
    if k > 0 {
      SelectPrefix(t, u, k - 1, done, want);
    }
  }

  lemma {:induction false} SelectAppend<T>(t: seq<Row<T>>, u: seq<Row<T>>, done: T -> bool, want: bool)
    requires |u| <= 1
    ensures Select(t + u, done, want) == Select(t, done, want) + Select(u, done, want)
  {
    SelectPrefix(t, u, |t|, done, want);
    if u != [] {
      assert SelectIn(u, 1, done, want) == If(done(u[0].stats) == want, u[0]);
    }
  }

  lemma {:induction false} TouchedAppend<E, T>(r: Rules<E, T>, t: seq<Row<T>>, u: seq<Row<T>>, e: E)
    ensures Touched(r, t + u, e) == Touched(r, t, e) + Touched(r, u, e)
  {
  }

  /** One event takes every one of the first `m` lives a step further. */
  ghost predicate Steps<E, T>(r: Rules<E, T>, life: nat -> Life<T>, life': nat -> Life<T>, e: E, next: nat, at: nat, m: nat) {
    forall id: nat | id < m :: life'(id) == LifeStep(r, life(id), e, id, next, at)
  }

  lemma {:induction false} KeepOne<E, T>(r: Rules<E, T>, life: Life<T>, e: E, id: nat, next: nat, at: nat)
    requires r.harvests(e)
    ensures Select(ActiveRow(life, id), r.done, false) == ActiveRow(LifeStep(r, life, e, id, next, at), id)
  {
    if life.Active? {
      assert SelectIn(ActiveRow(life, id), 0, r.done, false) == [];
    }
  }

  lemma {:induction false} ActiveHarvested<E, T>(r: Rules<E, T>, life: nat -> Life<T>, life': nat -> Life<T>, e: E, next: nat, at: nat, m: nat)
    requires Steps(r, life, life', e, next, at, m) && r.harvests(e)
    ensures Select(ActiveRows(life, m), r.done, false) == ActiveRows(life', m)
    decreases m
  {
    if m > 0 {
      ActiveHarvested(r, life, life', e, next, at, m - 1);
      KeepOne(r, life(m - 1), e, m - 1, next, at);
      SelectAppend(ActiveRows(life, m - 1), ActiveRow(life(m - 1), m - 1), r.done, false);
    }
  }

  lemma {:induction false} TouchOne<E, T>(r: Rules<E, T>, life: Life<T>, e: E, id: nat, next: nat, at: nat)
    requires !r.harvests(e) && r.opens(e).None?
    ensures Touched(r, ActiveRow(life, id), e) == ActiveRow(LifeStep(r, life, e, id, next, at), id)
  {
  }

  lemma {:induction false} ActiveTouched<E, T>(r: Rules<E, T>, life: nat -> Life<T>, life': nat -> Life<T>, e: E, next: nat, at: nat, m: nat)
    requires Steps(r, life, life', e, next, at, m) && !r.harvests(e) && r.opens(e).None?
    ensures Touched(r, ActiveRows(life, m), e) == ActiveRows(life', m)
    decreases m
  {
    if m > 0 {
      ActiveTouched(r, life, life', e, next, at, m - 1);
      TouchOne(r, life(m - 1), e, m - 1, next, at);
      TouchedAppend(r, ActiveRows(life, m - 1), ActiveRow(life(m - 1), m - 1), e);
    }
  }

  lemma {:induction false} ActiveOpened<E, T>(r: Rules<E, T>, life: nat -> Life<T>, life': nat -> Life<T>, e: E, next: nat, at: nat, m: nat)
    requires Steps(r, life, life', e, next, at, m) && Opened(r, e).Some? && m <= next
    ensures ActiveRows(life', m) == ActiveRows(life, m)
    decreases m
  {
    if m > 0 {
      ActiveOpened(r, life, life', e, next, at, m - 1);
    }
  }

  /** The dictionary holds each active request once, in order of issue, and no other. */
  lemma {:induction false} TableIsActive<E, T>(r: Rules<E, T>, es: seq<E>, n: nat)
    requires n <= |es|
    ensures TableAt(r, es, n) == ActiveRows(LivesAt(r, es, n), Issued(r, es, n))
  {
    if n > 0 {
      var k, m := n - 1, Issued(r, es, n - 1);
      var life, life' := LivesAt(r, es, k), LivesAt(r, es, n);
      TableIsActive(r, es, k);
      if r.harvests(es[k]) {
        ActiveHarvested(r, life, life', es[k], m, k, m);
      } else if r.opens(es[k]).Some? {
        ActiveOpened(r, life, life', es[k], m, k, m);
        IssuedIff(r, es, k, m);
      } else {
        ActiveTouched(r, life, life', es[k], m, k, m);
      }
    }
  }

  lemma {:induction false} FindPrefix<T>(t: seq<Row<T>>, u: seq<Row<T>>, k: nat, id: nat)
    requires k <= |t|
    ensures FindIn(t + u, k, id) == FindIn(t, k, id)
    decreases k
  {
    if k > 0 {
      FindPrefix(t, u, k - 1, id);
    }
  }

  lemma {:induction false} FindAppend<T>(t: seq<Row<T>>, u: seq<Row<T>>, id: nat)
    requires |u| <= 1
    ensures Find(t + u, id) == if u != [] && u[0].id == id then Some(u[0].stats) else Find(t, id)
  {
    FindPrefix(t, u, |t|, id);
  }

  lemma {:induction false} FindActive<T>(life: nat -> Life<T>, m: nat, id: nat)
    ensures Find(ActiveRows(life, m), id) == if id < m && life(id).Active? then Some(life(id).stats) else None
    decreases m
  {
    if m > 0 {
      FindActive(life, m - 1, id);
      FindAppend(ActiveRows(life, m - 1), ActiveRow(life(m - 1), m - 1), id);
    }
  }

  /** A request is found in the dictionary exactly while it is active. */
  lemma {:induction false} FoundIff<E, T>(r: Rules<E, T>, es: seq<E>, n: nat, id: nat)
    requires n <= |es|
    ensures var life := LifeAt(r, es, n, id);
            Find(TableAt(r, es, n), id) == if life.Active? then Some(life.stats) else None
  {
    TableIsActive(r, es, n);
    FindActive(LivesAt(r, es, n), Issued(r, es, n), id);
    IssuedIff(r, es, n, id);
  }

  // ---- every request is handed over once ----

  lemma {:induction false} TimesSelected<T>(t: seq<Row<T>>, k: nat, done: T -> bool, want: bool, x: Row<T>)
    requires k <= |t|
    ensures Times(SelectIn(t, k, done, want), x) == if done(x.stats) == want then TimesIn(t, k, x) else 0
    decreases k
  {
    if k > 0 {
      TimesSelected(t, k - 1, done, want, x);
      TimesOne(t[k - 1], x);
      TimesAppend(SelectIn(t, k - 1, done, want), If(done(t[k - 1].stats) == want, t[k - 1]), x);
    }
  }

  lemma {:induction false} TimesActiveRow<T>(life: Life<T>, id: nat, x: Row<T>)
    ensures Times(ActiveRow(life, id), x) == if x.id == id && life == Active(x.stats) then 1 else 0
  {
    if life.Active? {
      TimesOne(Row(id, life.stats), x);
    }
  }

  lemma {:induction false} TimesAllRow<T>(life: Life<T>, id: nat, x: Row<T>)
    ensures Times(AllRow(life, id), x)
            == if x.id == id && life != NotIssued && life.stats == x.stats then 1 else 0
  {
    if life != NotIssued {
      TimesOne(Row(id, life.stats), x);
    }
  }

  lemma {:induction false} TimesActive<T>(life: nat -> Life<T>, m: nat, x: Row<T>)
    ensures Times(ActiveRows(life, m), x) == if x.id < m && life(x.id) == Active(x.stats) then 1 else 0
    decreases m
  {
    if m > 0 {
      TimesActive(life, m - 1, x);
      TimesAppend(ActiveRows(life, m - 1), ActiveRow(life(m - 1), m - 1), x);
      TimesActiveRow(life(m - 1), m - 1, x);
    }
  }

  lemma {:induction false} TimesAll<T>(life: nat -> Life<T>, m: nat, x: Row<T>)
    ensures Times(AllRows(life, m), x)
            == if x.id < m && life(x.id) != NotIssued && life(x.id).stats == x.stats then 1 else 0
    decreases m
  {
    if m > 0 {
      TimesAll(life, m - 1, x);
      TimesAppend(AllRows(life, m - 1), AllRow(life(m - 1), m - 1), x);
      TimesAllRow(life(m - 1), m - 1, x);
    }
  }

  lemma {:induction false} TimesInTable<E, T>(r: Rules<E, T>, es: seq<E>, n: nat, x: Row<T>)
    requires n <= |es|
    ensures Times(TableAt(r, es, n), x) == if LifeAt(r, es, n, x.id) == Active(x.stats) then 1 else 0
  {
    TableIsActive(r, es, n);
    TimesActive(LivesAt(r, es, n), Issued(r, es, n), x);
    IssuedIff(r, es, n, x.id);
  }

  ghost predicate ReportedAs<T>(life: Life<T>, v: T) {
    life.Reported? && life.stats == v
  }

  lemma {:induction false} TimesHarvestAt<E, T>(r: Rules<E, T>, es: seq<E>, k: nat, x: Row<T>)
    requires k < |es|
    ensures Times(HarvestAt(r, es, k), x)
            == if r.harvests(es[k]) && r.done(x.stats) && LifeAt(r, es, k, x.id) == Active(x.stats) then 1 else 0
  {
    if r.harvests(es[k]) {
      TimesSelected(TableAt(r, es, k), |TableAt(r, es, k)|, r.done, true, x);
      TimesInTable(r, es, k, x);
    }
  }

  lemma {:induction false} ReportedStep<E, T>(r: Rules<E, T>, life: Life<T>, e: E, id: nat, next: nat, at: nat, v: T)
    ensures ReportedAs(LifeStep(r, life, e, id, next, at), v)
            <==> ReportedAs(life, v) || (r.harvests(e) && r.done(v) && life == Active(v))
  {
  }

  /** A row is among the harvested ones once if its request is reported with it, and otherwise not. */
  ghost predicate ReportedTimes<T>(h: seq<Row<T>>, life: Life<T>, x: Row<T>) {
    Times(h, x) == if ReportedAs(life, x.stats) then 1 else 0
  }

  lemma {:induction false} TimesStep<E, T>(
    r: Rules<E, T>, h: seq<Row<T>>, a: seq<Row<T>>, life: Life<T>, e: E, next: nat, at: nat, x: Row<T>)
    requires ReportedTimes(h, life, x)
    requires Times(a, x) == if r.harvests(e) && r.done(x.stats) && life == Active(x.stats) then 1 else 0
    ensures ReportedTimes(h + a, LifeStep(r, life, e, x.id, next, at), x)
  {
    TimesAppend(h, a, x);
    ReportedStep(r, life, e, x.id, next, at, x.stats);
  }

  lemma {:induction false} TimesHarvested<E, T>(r: Rules<E, T>, es: seq<E>, n: nat, x: Row<T>)
    requires n <= |es|
    ensures ReportedTimes(Harvested(r, es, n), LifeAt(r, es, n, x.id), x)
    decreases n
  {
    if n > 0 {
      TimesHarvested(r, es, n - 1, x);
      TimesHarvestAt(r, es, n - 1, x);
      TimesStep(r, Harvested(r, es, n - 1), HarvestAt(r, es, n - 1), LifeAt(r, es, n - 1, x.id),
                es[n - 1], Issued(r, es, n - 1), n - 1, x);
    }
  }

  /**
   Over every run, what the harvests handed over and what is still in the dictionary are
   together every request ever issued, each exactly once, with its latest statistics.
   */
  lemma {:induction false} Conserved<E, T(!new)>(r: Rules<E, T>, es: seq<E>, n: nat)
    requires n <= |es|
    ensures multiset(Harvested(r, es, n)) + multiset(TableAt(r, es, n))
            == multiset(AllRows(LivesAt(r, es, n), Issued(r, es, n)))
  {
    forall x: Row<T>
      ensures Times(Harvested(r, es, n), x) + Times(TableAt(r, es, n), x)
           == Times(AllRows(LivesAt(r, es, n), Issued(r, es, n)), x)
    {
      ConservedRow(r, es, n, x);
    }
    SameTimes(Harvested(r, es, n), TableAt(r, es, n), AllRows(LivesAt(r, es, n), Issued(r, es, n)));
  }

  lemma {:induction false} SameTimes<T(!new)>(a: seq<T>, b: seq<T>, c: seq<T>)
    requires forall x: T :: Times(a, x) + Times(b, x) == Times(c, x)
    ensures multiset(a) + multiset(b) == multiset(c)
  {
    forall x: T
      ensures (multiset(a) + multiset(b))[x] == multiset(c)[x]
    {
      assert Times(a, x) + Times(b, x) == Times(c, x);
      TimesIsMultiplicity(a, |a|, x);
      assert a[..|a|] == a;
      TimesIsMultiplicity(b, |b|, x);
      assert b[..|b|] == b;
      TimesIsMultiplicity(c, |c|, x);
      assert c[..|c|] == c;
    }
  }

  lemma {:induction false} ConservedRow<E, T>(r: Rules<E, T>, es: seq<E>, n: nat, x: Row<T>)
    requires n <= |es|
    ensures Times(Harvested(r, es, n), x) + Times(TableAt(r, es, n), x)
            == Times(AllRows(LivesAt(r, es, n), Issued(r, es, n)), x)
  {
    TimesHarvested(r, es, n, x);
    TimesInTable(r, es, n, x);
    TimesAll(LivesAt(r, es, n), Issued(r, es, n), x);
    IssuedIff(r, es, n, x.id);
  }

  // ---- in which harvest a request is ----

  lemma {:induction false} SelectedIff<T>(t: seq<Row<T>>, k: nat, done: T -> bool, want: bool, row: Row<T>)
    requires k <= |t|
    ensures row in SelectIn(t, k, done, want) <==> row in t[..k] && done(row.stats) == want
    decreases k
  {
    if k > 0 {
      SelectedIff(t, k - 1, done, want, row);
      assert t[..k] == t[..k - 1] + [t[k - 1]];
    }
  }

  lemma {:induction false} InActiveIff<T>(life: nat -> Life<T>, m: nat, row: Row<T>)
    ensures row in ActiveRows(life, m) <==> row.id < m && life(row.id) == Active(row.stats)
    decreases m
  {
    if m > 0 {
      InActiveIff(life, m - 1, row);
    }
  }

  lemma {:induction false} StaysReported<E, T>(r: Rules<E, T>, es: seq<E>, k: nat, n: nat, id: nat)
    requires k <= n <= |es| && LifeAt(r, es, k, id).Reported?
    ensures LifeAt(r, es, n, id) == LifeAt(r, es, k, id)
    decreases n
  {
    if k < n {
      StaysReported(r, es, k, n - 1, id);
    }
  }

  lemma {:induction false} ReportedBefore<E, T>(r: Rules<E, T>, es: seq<E>, n: nat, id: nat)
    requires n <= |es| && LifeAt(r, es, n, id).Reported?
    ensures LifeAt(r, es, n, id).at < n
    ensures var k := LifeAt(r, es, n, id).at;
            LifeAt(r, es, k, id).Active? && LifeAt(r, es, k + 1, id) == LifeAt(r, es, n, id)
  {
    if LifeAt(r, es, n - 1, id).Reported? {
      ReportedBefore(r, es, n - 1, id);
    }
  }

  /**
   A row is in the harvest of event `k` exactly when the request's life ends there: so every
   request is in at most one harvest, and one that is still active is in none.
   */
  lemma {:induction false} HarvestIff<E, T>(r: Rules<E, T>, es: seq<E>, n: nat, k: nat, row: Row<T>)
    requires k < n <= |es|
    ensures row in HarvestAt(r, es, k) <==> LifeAt(r, es, n, row.id) == Reported(row.stats, k)
  {
    HarvestNow(r, es, k, row);
    if LifeAt(r, es, k + 1, row.id).Reported? {
      StaysReported(r, es, k + 1, n, row.id);
    }
    if LifeAt(r, es, n, row.id).Reported? {
      ReportedBefore(r, es, n, row.id);
    }
  }

  lemma {:induction false} HarvestNow<E, T>(r: Rules<E, T>, es: seq<E>, k: nat, row: Row<T>)
    requires k < |es|
    ensures row in HarvestAt(r, es, k) <==> LifeAt(r, es, k + 1, row.id) == Reported(row.stats, k)
  {
    InTableIff(r, es, k, row);
    var t := TableAt(r, es, k);
    SelectedIff(t, |t|, r.done, true, row);
    assert t[..|t|] == t;
    if LifeAt(r, es, k, row.id).Reported? {
      ReportedBefore(r, es, k, row.id);
    }
  }

  lemma {:induction false} InTableIff<E, T>(r: Rules<E, T>, es: seq<E>, k: nat, row: Row<T>)
    requires k <= |es|
    ensures row in TableAt(r, es, k) <==> LifeAt(r, es, k, row.id) == Active(row.stats)
  {
    TableIsActive(r, es, k);
    InActiveIff(LivesAt(r, es, k), Issued(r, es, k), row);
    IssuedIff(r, es, k, row.id);
  }

  // ---- when a request is harvested ----

  /**
   `ends` says of an event that it ends a request, that it reopens it, or nothing; a new request
   has not ended.
   */
  ghost predicate Settles<E, T(!new)>(r: Rules<E, T>, ends: (E, nat) -> Option<bool>, es: seq<E>) {
    forall i | 0 <= i < |es| :: SettlesAt(r, ends, es[i])
  }

  ghost predicate SettlesAt<E, T(!new)>(r: Rules<E, T>, ends: (E, nat) -> Option<bool>, e: E) {
    && (forall id: nat, v: T :: r.done(r.touch(e, id, v)) == if ends(e, id).Some? then ends(e, id).value else r.done(v))
    && (forall id: nat :: ends(e, id).Some? ==> !r.harvests(e) && r.opens(e).None?)
    && (r.opens(e).Some? ==> !r.done(r.opens(e).value))
  }

  /** The latest event before place `n` that says anything of request `id`, once issued, ends it. */
  predicate Ended<E, T>(r: Rules<E, T>, ends: (E, nat) -> Option<bool>, es: seq<E>, n: nat, id: nat)
    requires n <= |es|
  {
    n > 0 && id < Issued(r, es, n - 1)
    && if ends(es[n - 1], id).Some? then ends(es[n - 1], id).value else Ended(r, ends, es, n - 1, id)
  }

  /** Event `i` ends request `id`, and no event from there to place `n` reopens it. */
  predicate EndsFor<E, T>(r: Rules<E, T>, ends: (E, nat) -> Option<bool>, es: seq<E>, i: nat, n: nat, id: nat)
    requires n <= |es|
  {
    i < n && id < Issued(r, es, i) && ends(es[i], id) == Some(true)
    && forall k | i < k < n :: ends(es[k], id) != Some(false)
  }

  lemma {:induction false} EndedIff<E, T>(r: Rules<E, T>, ends: (E, nat) -> Option<bool>, es: seq<E>, n: nat, id: nat)
    requires n <= |es|
    ensures Ended(r, ends, es, n, id) <==> exists i: nat :: EndsFor(r, ends, es, i, n, id)
    decreases n
  {
    if n > 0 {
      EndedIff(r, ends, es, n - 1, id);
      if Ended(r, ends, es, n, id) {
        if ends(es[n - 1], id).Some? {
          assert EndsFor(r, ends, es, n - 1, n, id);
        } else {
          var i: nat :| EndsFor(r, ends, es, i, n - 1, id);
          assert EndsFor(r, ends, es, i, n, id);
        }
      }
      if i: nat :| EndsFor(r, ends, es, i, n, id) {
        IssuedGrows(r, es, i, n - 1);
        if i < n - 1 {
          assert EndsFor(r, ends, es, i, n - 1, id);
        }
      }
    }
  }

  lemma {:induction false} DoneIff<E, T(!new)>(r: Rules<E, T>, ends: (E, nat) -> Option<bool>, es: seq<E>, n: nat, id: nat)
    requires n <= |es| && Settles(r, ends, es) && LifeAt(r, es, n, id).Active?
    ensures r.done(LifeAt(r, es, n, id).stats) == Ended(r, ends, es, n, id)
    decreases n
  {
    var k := n - 1;
    assert SettlesAt(r, ends, es[k]);
    IssuedIff(r, es, k, id);
    if LifeAt(r, es, k, id).Active? {
      DoneIff(r, ends, es, k, id);
    }
  }

  lemma {:induction false} IssuedGrows<E, T>(r: Rules<E, T>, es: seq<E>, i: nat, k: nat)
    requires i <= k <= |es|
    ensures Issued(r, es, i) <= Issued(r, es, k)
    decreases k
  {
    if i < k {
      IssuedGrows(r, es, i, k - 1);
    }
  }

  /** At a harvest before place `n`, request `id` had ended. */
  ghost predicate EndedAtHarvest<E, T>(r: Rules<E, T>, ends: (E, nat) -> Option<bool>, es: seq<E>, n: nat, id: nat)
    requires n <= |es|
  {
    exists j | 0 <= j < n :: r.harvests(es[j]) && Ended(r, ends, es, j, id)
  }

  /**
   An issued request has left the dictionary exactly when it had ended at an earlier harvest: an
   unfinished request survives any number of harvests, a finished one not even the next.
   */
  lemma {:induction false} ReportedIff<E, T(!new)>(r: Rules<E, T>, ends: (E, nat) -> Option<bool>, es: seq<E>, n: nat, id: nat)
    requires n <= |es| && Settles(r, ends, es) && id < Issued(r, es, n)
    ensures Find(TableAt(r, es, n), id).None? <==> EndedAtHarvest(r, ends, es, n, id)
  {
    FoundIff(r, es, n, id);
    IssuedIff(r, es, n, id);
    if LifeAt(r, es, n, id).Reported? {
      ReportedBefore(r, es, n, id);
      DoneIff(r, ends, es, LifeAt(r, es, n, id).at, id);
    }
    if j :| 0 <= j < n && r.harvests(es[j]) && Ended(r, ends, es, j, id) {
      HarvestTakes(r, ends, es, j, id);
      StaysReported(r, es, j + 1, n, id);
    }
  }

  lemma {:induction false} HarvestTakes<E, T(!new)>(r: Rules<E, T>, ends: (E, nat) -> Option<bool>, es: seq<E>, j: nat, id: nat)
    requires j < |es| && Settles(r, ends, es) && r.harvests(es[j]) && Ended(r, ends, es, j, id)
    ensures LifeAt(r, es, j + 1, id).Reported?
  {
    IssuedGrows(r, es, j - 1, j);
    IssuedIff(r, es, j, id);
    if LifeAt(r, es, j, id).Active? {
      DoneIff(r, ends, es, j, id);
    }
  }

  // ---- what holds of every open request ----

  /** A property that new requests have and that no event of the run takes away. */
  ghost predicate Kept<E, T>(r: Rules<E, T>, es: seq<E>, p: T -> bool) {
    forall i | 0 <= i < |es| :: KeptAt(r, es, i, p)
  }

  ghost predicate KeptAt<E, T>(r: Rules<E, T>, es: seq<E>, i: nat, p: T -> bool)
    requires i < |es|
  {
    && (r.opens(es[i]).Some? ==> p(r.opens(es[i]).value))
    && forall id: nat ::
         var life := LifeAt(r, es, i, id);
         life.Active? && p(life.stats) ==> p(r.touch(es[i], id, life.stats))
  }

  lemma {:induction false} LifeKeeps<E, T>(r: Rules<E, T>, es: seq<E>, n: nat, id: nat, p: T -> bool)
    requires n <= |es| && Kept(r, es, p) && LifeAt(r, es, n, id).Active?
    ensures p(LifeAt(r, es, n, id).stats)
    decreases n
  {
    assert KeptAt(r, es, n - 1, p);
    if LifeAt(r, es, n - 1, id).Active? {
      LifeKeeps(r, es, n - 1, id, p);
    }
  }

  lemma {:induction false} HarvestKeeps<E, T>(r: Rules<E, T>, es: seq<E>, k: nat, p: T -> bool, row: Row<T>)
    requires k < |es| && Kept(r, es, p) && row in HarvestAt(r, es, k)
    ensures p(row.stats) && r.done(row.stats)
  {
    HarvestNow(r, es, k, row);
    ReportedBefore(r, es, k + 1, row.id);
    LifeKeeps(r, es, k, row.id, p);
  }

  // ---- measures over the done requests of a table ----

  /** The sum of `f` over the done requests among the first `k` rows. */
  function SumDoneIn<T>(t: seq<Row<T>>, k: nat, done: T -> bool, f: T -> int): int
    requires k <= |t|
  {
    if k == 0 then 0 else SumDoneIn(t, k - 1, done, f) + Measure(t[k - 1].stats, done, f)
  }

  function Measure<T>(v: T, done: T -> bool, f: T -> int): int {
    if done(v) then f(v) else 0
  }

  function SumDone<T>(t: seq<Row<T>>, done: T -> bool, f: T -> int): int {
    SumDoneIn(t, |t|, done, f)
  }

  /** The sum of `f` over the first `k` rows. */
  function SumIn<T>(t: seq<Row<T>>, k: nat, f: T -> int): int
    requires k <= |t|
  {
    if k == 0 then 0 else SumIn(t, k - 1, f) + f(t[k - 1].stats)
  }

  function Sum<T>(t: seq<Row<T>>, f: T -> int): int {
    SumIn(t, |t|, f)
  }

  lemma {:induction false} SumPrefix<T>(t: seq<Row<T>>, u: seq<Row<T>>, k: nat, f: T -> int)
    requires k <= |t|
    ensures SumIn(t + u, k, f) == SumIn(t, k, f)
    decreases k
  {
    if k > 0 {
      SumPrefix(t, u, k - 1, f);
    }
  }

  lemma {:induction false} SumDonePrefix<T>(t: seq<Row<T>>, u: seq<Row<T>>, k: nat, done: T -> bool, f: T -> int)
    requires k <= |t|
    ensures SumDoneIn(t + u, k, done, f) == SumDoneIn(t, k, done, f)
    decreases k
  {
    if k > 0 {
      SumDonePrefix(t, u, k - 1, done, f);
    }
  }

  lemma {:induction false} SumDoneAppend<T>(t: seq<Row<T>>, row: Row<T>, done: T -> bool, f: T -> int)
    ensures SumDone(t + [row], done, f) == SumDone(t, done, f) + Measure(row.stats, done, f)
  {
    SumDonePrefix(t, [row], |t|, done, f);
  }

  lemma {:induction false} SumIf<T>(t: seq<Row<T>>, row: Row<T>, c: bool, f: T -> int)
    ensures Sum(t + If(c, row), f) == Sum(t, f) + if c then f(row.stats) else 0
  {
    SumPrefix(t, If(c, row), |t|, f);
  }

  lemma {:induction false} SumSelected<T>(t: seq<Row<T>>, k: nat, done: T -> bool, f: T -> int)
    requires k <= |t|
    ensures Sum(SelectIn(t, k, done, true), f) == SumDoneIn(t, k, done, f)
    decreases k
  {
    if k > 0 {
      SumSelected(t, k - 1, done, f);
      SumIf(SelectIn(t, k - 1, done, true), t[k - 1], done(t[k - 1].stats), f);
    }
  }

  /** Nothing done is left behind. */
  lemma {:induction false} SumRest<T>(t: seq<Row<T>>, k: nat, done: T -> bool, f: T -> int)
    requires k <= |t|
    ensures SumDone(SelectIn(t, k, done, false), done, f) == 0
    decreases k
  {
    if k > 0 {
      SumRest(t, k - 1, done, f);
      if !done(t[k - 1].stats) {
        SumDoneAppend(SelectIn(t, k - 1, done, false), t[k - 1], done, f);
      } else {
        assert SelectIn(t, k, done, false) == SelectIn(t, k - 1, done, false);
      }
    }
  }

  /** No id occurs twice. */
  predicate Distinct<T>(t: seq<Row<T>>) {
    forall i, j | 0 <= i < j < |t| :: t[i].id != t[j].id
  }

  lemma {:induction false} ActiveDistinct<T>(life: nat -> Life<T>, m: nat)
    ensures Distinct(ActiveRows(life, m)) && forall i | 0 <= i < |ActiveRows(life, m)| :: ActiveRows(life, m)[i].id < m
    decreases m
  {
    if m > 0 {
      ActiveDistinct(life, m - 1);
    }
  }

  lemma {:induction false} TableDistinct<E, T>(r: Rules<E, T>, es: seq<E>, n: nat)
    requires n <= |es|
    ensures Distinct(TableAt(r, es, n))
  {
    TableIsActive(r, es, n);
    ActiveDistinct(LivesAt(r, es, n), Issued(r, es, n));
  }

  /** The event changes request `id` at most. */
  ghost predicate TouchesOnly<E, T(!new)>(r: Rules<E, T>, e: E, id: nat) {
    forall id': nat, v: T :: id' != id ==> r.touch(e, id', v) == v
  }

  /** A measure of the done requests moves by what the one touched request contributes. */
  lemma {:induction false} SumTouched<E, T(!new)>(r: Rules<E, T>, t: seq<Row<T>>, k: nat, e: E, id: nat, f: T -> int)
    requires TouchesOnly(r, e, id) && Distinct(t) && k <= |t|
    ensures SumDoneIn(Touched(r, t, e), k, r.done, f) - SumDoneIn(t, k, r.done, f)
            == match FindIn(t, k, id)
               case None => 0
               case Some(v) => Measure(r.touch(e, id, v), r.done, f) - Measure(v, r.done, f)
    decreases k
  {
    if k > 0 {
      SumTouched(r, t, k - 1, e, id, f);
      if t[k - 1].id == id {
        NotFound(t, k - 1, id);
      }
    }
  }

  lemma {:induction false} NotFound<T>(t: seq<Row<T>>, k: nat, id: nat)
    requires k <= |t| && forall i | 0 <= i < k :: t[i].id != id
    ensures FindIn(t, k, id).None?
    decreases k
  {
    if k > 0 {
      NotFound(t, k - 1, id);
    }
  }

  /** How much an event adds to a measure of the done requests of a table. */
  function Gain<E, T>(r: Rules<E, T>, t: seq<Row<T>>, e: E, id: nat, f: T -> int): int {
    if r.opens(e).Some? then 0
    else
      match Find(t, id)
      case None => 0
      case Some(v) => Measure(r.touch(e, id, v), r.done, f) - Measure(v, r.done, f)
  }

  lemma {:induction false} SumStep<E, T(!new)>(r: Rules<E, T>, t: seq<Row<T>>, next: nat, e: E, id: nat, f: T -> int)
    requires TouchesOnly(r, e, id) && Distinct(t)
    requires r.opens(e).Some? ==> !r.done(r.opens(e).value)
    ensures SumDone(TableStep(r, t, next, e), r.done, f)
            == if r.harvests(e) then 0 else SumDone(t, r.done, f) + Gain(r, t, e, id, f)
  {
    if r.harvests(e) {
      SumRest(t, |t|, r.done, f);
    } else if r.opens(e).Some? {
      SumDoneAppend(t, Row(next, r.opens(e).value), r.done, f);
    } else {
      SumTouched(r, t, |t|, e, id, f);
    }
  }

  /** Event `i` moves the pending total by what it adds to the measure of the done requests. */
  ghost predicate Follows<E, T(!new)>(r: Rules<E, T>, es: seq<E>, f: T -> int, pending: nat -> int, ids: E -> nat, i: nat)
    requires i < |es|
  {
    var id := ids(es[i]);
    && TouchesOnly(r, es[i], id) && (r.opens(es[i]).Some? ==> !r.done(r.opens(es[i]).value))
    && pending(i + 1) == if r.harvests(es[i]) then 0 else pending(i) + Gain(r, TableAt(r, es, i), es[i], id, f)
  }

  /** The pending total is the measure of the done requests in the table. */
  ghost predicate Totals<E, T>(r: Rules<E, T>, es: seq<E>, f: T -> int, pending: nat -> int, n: nat)
    requires n <= |es|
  {
    pending(n) == SumDone(TableAt(r, es, n), r.done, f)
  }

  lemma {:induction false} FollowsOn<E, T(!new)>(r: Rules<E, T>, es: seq<E>, f: T -> int, pending: nat -> int, ids: E -> nat, i: nat)
    requires i < |es| && Follows(r, es, f, pending, ids, i) && Totals(r, es, f, pending, i)
    ensures Totals(r, es, f, pending, i + 1)
  {
    TableDistinct(r, es, i);
    SumStep(r, TableAt(r, es, i), Issued(r, es, i), es[i], ids(es[i]), f);
  }

  lemma {:induction false} TotalFollows<E, T(!new)>(r: Rules<E, T>, es: seq<E>, f: T -> int, pending: nat -> int, ids: E -> nat, n: nat)
    requires n <= |es| && pending(0) == 0
    requires forall i: nat | i < n :: Follows(r, es, f, pending, ids, i)
    ensures Totals(r, es, f, pending, n)
    decreases n
  {
    if n > 0 {
      TotalFollows(r, es, f, pending, ids, n - 1);
      FollowsOn(r, es, f, pending, ids, n - 1);
    }
  }

  /** A request that no earlier event ended is not done. */
  lemma {:induction false} NotYetDone<E, T(!new)>(r: Rules<E, T>, ends: (E, nat) -> Option<bool>, es: seq<E>, n: nat, id: nat)
    requires n <= |es| && Settles(r, ends, es) && LifeAt(r, es, n, id).Active?
    requires forall i | 0 <= i < n :: ends(es[i], id) != Some(true)
    ensures !r.done(LifeAt(r, es, n, id).stats)
  {
    DoneIff(r, ends, es, n, id);
    EndedIff(r, ends, es, n, id);
  }

  // ---- lists that are handed over and emptied ----

  /** What has been appended since the last harvest. */
  function Pending<E, A>(harvests: E -> bool, adds: E -> seq<A>, es: seq<E>, n: nat): seq<A>
    requires n <= |es|
  {
    if n == 0 || harvests(es[n - 1]) then [] else Pending(harvests, adds, es, n - 1) + adds(es[n - 1])
  }

  /** What the harvests among the first `n` events handed over, one after the other. */
  function Emitted<E, A>(harvests: E -> bool, adds: E -> seq<A>, es: seq<E>, n: nat): seq<A>
    requires n <= |es|
  {
    if n == 0 then []
    else Emitted(harvests, adds, es, n - 1)
         + if harvests(es[n - 1]) then Pending(harvests, adds, es, n - 1) else []
  }

  /** Everything the first `n` events record. */
  function Recorded<E, A>(harvests: E -> bool, adds: E -> seq<A>, es: seq<E>, n: nat): seq<A>
    requires n <= |es|
  {
    if n == 0 then []
    else Recorded(harvests, adds, es, n - 1) + if harvests(es[n - 1]) then [] else adds(es[n - 1])
  }

  /** Nothing recorded is lost, repeated or reordered. */
  lemma {:induction false} EmittedInOrder<E, A>(harvests: E -> bool, adds: E -> seq<A>, es: seq<E>, n: nat)
    requires n <= |es|
    ensures Emitted(harvests, adds, es, n) + Pending(harvests, adds, es, n) == Recorded(harvests, adds, es, n)
  {
    if n > 0 {
      EmittedInOrder(harvests, adds, es, n - 1);
    }
  }

  // ---- machines that hold such tables and lists ----

  function RunAt<S, E>(step: (S, E) -> S, init: S, es: seq<E>, n: nat): S
    requires n <= |es|
  {
    if n == 0 then init else step(RunAt(step, init, es, n - 1), es[n - 1])
  }

  ghost predicate Simulates<S(!new), E(!new), T>(step: (S, E) -> S, r: Rules<E, T>, table: S -> seq<Row<T>>, next: S -> nat) {
    forall s: S, e: E {:trigger step(s, e)} ::
      table(step(s, e)) == TableStep(r, table(s), next(s), e) && next(step(s, e)) == NextStep(r, next(s), e)
  }

  lemma {:induction false} SimulatesAt<S(!new), E(!new), T>(
    step: (S, E) -> S, init: S, r: Rules<E, T>, table: S -> seq<Row<T>>, next: S -> nat, es: seq<E>, n: nat)
    requires n <= |es| && Simulates(step, r, table, next) && table(init) == [] && next(init) == 0
    ensures table(RunAt(step, init, es, n)) == TableAt(r, es, n) && next(RunAt(step, init, es, n)) == Issued(r, es, n)
    decreases n
  {
    if n > 0 {
      SimulatesAt(step, init, r, table, next, es, n - 1);
    }
  }

  ghost predicate Collects<S(!new), E(!new), A>(step: (S, E) -> S, harvests: E -> bool, adds: E -> seq<A>, list: S -> seq<A>) {
    forall s: S, e: E {:trigger step(s, e)} :: list(step(s, e)) == if harvests(e) then [] else list(s) + adds(e)
  }

  lemma {:induction false} CollectsAt<S(!new), E(!new), A>(
    step: (S, E) -> S, init: S, harvests: E -> bool, adds: E -> seq<A>, list: S -> seq<A>, es: seq<E>, n: nat)
    requires n <= |es| && Collects(step, harvests, adds, list) && list(init) == []
    ensures list(RunAt(step, init, es, n)) == Pending(harvests, adds, es, n)
    decreases n
  {
    if n > 0 {
      CollectsAt(step, init, harvests, adds, list, es, n - 1);
    }
  }

  lemma {:induction false} KeepsAt<S(!new), E(!new), A>(step: (S, E) -> S, init: S, h: S -> A, es: seq<E>, n: nat)
    requires n <= |es| && forall s: S, e: E {:trigger step(s, e)} :: h(step(s, e)) == h(s)
    ensures h(RunAt(step, init, es, n)) == h(init)
    decreases n
  {
    if n > 0 {
      KeepsAt(step, init, h, es, n - 1);
    }
  }

  // ---- amounts that are handed over and reset ----

  ghost predicate Additive<C(!new)>(plus: (C, C) -> C, zero: C) {
    && (forall a: C, b: C, c: C {:trigger plus(plus(a, b), c)} :: plus(plus(a, b), c) == plus(a, plus(b, c)))
    && (forall a: C :: plus(a, zero) == a)
    && (forall a: C :: plus(zero, a) == a)
  }

  /** Everything counted in the first `n` steps. */
  function Amount<C>(plus: (C, C) -> C, zero: C, counted: nat -> C, n: nat): C {
    if n == 0 then zero else plus(Amount(plus, zero, counted, n - 1), counted(n - 1))
  }

  /** What the harvests among the first `n` steps handed over. */
  function Gathered<C>(plus: (C, C) -> C, zero: C, pending: nat -> C, harvests: nat -> bool, n: nat): C {
    if n == 0 then zero
    else plus(Gathered(plus, zero, pending, harvests, n - 1), if harvests(n - 1) then pending(n - 1) else zero)
  }

  /** Step `i` adds what it counts to the pending amount, or harvests it and starts again. */
  ghost predicate AccumulatesAt<C>(plus: (C, C) -> C, zero: C, pending: nat -> C, harvests: nat -> bool, counted: nat -> C, i: nat) {
    && (harvests(i) ==> counted(i) == zero)
    && pending(i + 1) == if harvests(i) then zero else plus(pending(i), counted(i))
  }

  lemma {:induction false} AmountConserved<C(!new)>(
    plus: (C, C) -> C, zero: C, pending: nat -> C, harvests: nat -> bool, counted: nat -> C, n: nat)
    requires Additive(plus, zero) && pending(0) == zero
    requires forall i: nat | i < n :: AccumulatesAt(plus, zero, pending, harvests, counted, i)
    ensures plus(Gathered(plus, zero, pending, harvests, n), pending(n)) == Amount(plus, zero, counted, n)
    decreases n
  {
    if n > 0 {
      AmountConserved(plus, zero, pending, harvests, counted, n - 1);
      assert AccumulatesAt(plus, zero, pending, harvests, counted, n - 1);
    }
  }
}
