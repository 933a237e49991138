/**
 What a report of the statistics monitor says of the requests that finished in its interval,
 over every run: how its totals relate to the sums over these requests, and its hit rates.
 */
module StatsTotals {
  import opened Text
  import opened Arithmetic
  import opened Requests
  import opened StatsModel
  import opened StatsRuns
  import opened StatsRequests

  // ---- what is counted beyond the finished requests ----

  function ZeroHit(v: Lookup): int {
    Bit(v.hits == 0)
  }

  /** The hits of a finished lookup that another finish overwrites. */
  function LookupOver(e: Event, named: Named): int {
    if e.LookupFinish? && named.lookup.Some? && named.lookup.value.finished then named.lookup.value.hits else 0
  }

  /** A finished lookup without hits that another finish overwrites. */
  function ZeroOver(e: Event, named: Named): int {
    if e.LookupFinish? && named.lookup.Some? && named.lookup.value.finished then ZeroHit(named.lookup.value) else 0
  }

  /** The hits of a retrieval that ends at clock reading zero, and those that another finish overwrites. */
  function RetrieveOver(e: Event, named: Named): int {
    if e.RetrieveFinish? && named.retrieve.Some? then
      var v := named.retrieve.value;
      (if v.end == 0.0 && e.now == 0.0 then e.hits else 0) + (if v.end != 0.0 then v.localHits else 0)
    else 0
  }

  /** The tokens of a transfer that ends at clock reading zero, and those counted for it before. */
  function TransferOver(e: Event, named: Named): int {
    if e.TransferFinish? && named.transfer.Some? then
      var v := named.transfer.value;
      (if e.now == 0.0 then v.tokens else 0) + (if v.end != 0.0 then v.tokens else 0)
    else 0
  }

  function OverIn(es: seq<Event>, over: (Event, Named) -> int): nat -> int {
    (i: nat) => if i < |es| then over(es[i], NamedBy(es, i)) else 0
  }

  /** The sum over the events since the last snapshot before place `n`. */
  function Since(snaps: nat -> bool, f: nat -> int, n: nat): int {
    if n == 0 || snaps(n - 1) then 0 else Since(snaps, f, n - 1) + f(n - 1)
  }

  /** Event `i` is in the interval that a snapshot in place `n` reports. */
  predicate InInterval(snaps: nat -> bool, i: nat, n: nat) {
    i < n && forall k: nat | i <= k < n :: !snaps(k)
  }

  ghost predicate NoneIn(snaps: nat -> bool, f: nat -> int, n: nat) {
    forall i: nat | InInterval(snaps, i, n) :: f(i) == 0
  }

  lemma {:induction false} SinceZero(snaps: nat -> bool, f: nat -> int, n: nat)
    requires NoneIn(snaps, f, n)
    ensures Since(snaps, f, n) == 0
    decreases n
  {
    if n > 0 && !snaps(n - 1) {
      assert InInterval(snaps, n - 1, n);
      forall i: nat | InInterval(snaps, i, n - 1)
        ensures f(i) == 0
      {
        assert InInterval(snaps, i, n);
      }
      SinceZero(snaps, f, n - 1);
    }
  }

  lemma {:induction false} SinceAtLeast(snaps: nat -> bool, f: nat -> int, n: nat)
    requires forall i: nat :: f(i) >= 0
    ensures Since(snaps, f, n) >= 0
    ensures forall i: nat | InInterval(snaps, i, n) :: Since(snaps, f, n) >= f(i)
    decreases n
  {
    if n > 0 && !snaps(n - 1) {
      SinceAtLeast(snaps, f, n - 1);
    }
  }

  /** Amounts that are not negative add up to nothing exactly when each of them is nothing. */
  lemma {:induction false} SinceZeroIff(snaps: nat -> bool, f: nat -> int, n: nat)
    requires forall i: nat :: f(i) >= 0
    ensures Since(snaps, f, n) == 0 <==> NoneIn(snaps, f, n)
  {
    SinceAtLeast(snaps, f, n);
    if NoneIn(snaps, f, n) {
      SinceZero(snaps, f, n);
    }
  }

  // ---- what an event counts and what it adds to the finished requests ----

  /** The lookup hits that an event counts; likewise for the other totals. */
  function LookupCounted(e: Event, named: Named): int {
    if e.LookupFinish? && named.lookup.Some? then e.hits else 0
  }

  function ZeroCounted(e: Event, named: Named): int {
    if e.LookupFinish? && named.lookup.Some? then Bit(e.hits == 0) else 0
  }

  function RetrieveCounted(e: Event, named: Named): int {
    if e.RetrieveFinish? && named.retrieve.Some? then e.hits else 0
  }

  function TransferCounted(e: Event, named: Named): int {
    if e.TransferFinish? && named.transfer.Some? then named.transfer.value.tokens else 0
  }

  lemma {:induction false} CountedTotals(limits: Thresholds, e: Event, named: Named)
    ensures var c := Added(limits, e, named);
            && c.lookupHits == LookupCounted(e, named) && c.lookupZeroHits == ZeroCounted(e, named)
            && c.hitTokens == RetrieveCounted(e, named) && c.transferredTokens == TransferCounted(e, named)
  {
  }

  /** How much an event changes a measure of a request, if the request is done before or after. */
  function Change<T>(r: Rules<Event, T>, e: Event, id: nat, v: T, f: T -> int): int {
    Measure(r.touch(e, id, v), r.done, f) - Measure(v, r.done, f)
  }

  lemma {:induction false} GainIsChange<T>(r: Rules<Event, T>, t: seq<Row<T>>, e: Event, id: nat, f: T -> int)
    ensures Gain(r, t, e, id, f)
            == if r.opens(e).None? && Find(t, id).Some? then Change(r, e, id, Find(t, id).value, f) else 0
  {
  }

  lemma {:induction false} LookupChange(e: Event, v: Lookup)
    requires !e.LookupStart?
    ensures e.LookupFinish?
            ==> Change(LookupRules(), e, e.id, v, LookupHits) == e.hits - (if v.finished then v.hits else 0)
                && Change(LookupRules(), e, e.id, v, ZeroHit) == Bit(e.hits == 0) - (if v.finished then ZeroHit(v) else 0)
    ensures !e.LookupFinish?
            ==> Change(LookupRules(), e, IdOf(e), v, LookupHits) == 0 && Change(LookupRules(), e, IdOf(e), v, ZeroHit) == 0
  {
  }

  lemma {:induction false} LookupGainOf(t: seq<Row<Lookup>>, e: Event, named: Named)
    requires named.lookup == Find(t, IdOf(e))
    ensures Gain(LookupRules(), t, e, IdOf(e), LookupHits) + LookupOver(e, named) == LookupCounted(e, named)
    ensures Gain(LookupRules(), t, e, IdOf(e), ZeroHit) + ZeroOver(e, named) == ZeroCounted(e, named)
  {
    GainIsChange(LookupRules(), t, e, IdOf(e), LookupHits);
    GainIsChange(LookupRules(), t, e, IdOf(e), ZeroHit);
    if !e.LookupStart? && named.lookup.Some? {
      LookupChange(e, named.lookup.value);
    }
  }

  lemma {:induction false} RetrieveChange(e: Event, v: Retrieve)
    requires !e.RetrieveStart? && NoRemoteHits(v)
    ensures e.RetrieveFinish?
            ==> Change(RetrieveRules(), e, e.id, v, RetrieveHits)
                == (if v.end == 0.0 && e.now == 0.0 then 0 else e.hits) - (if v.end != 0.0 then v.localHits else 0)
    ensures !e.RetrieveFinish? ==> Change(RetrieveRules(), e, IdOf(e), v, RetrieveHits) == 0
  {
  }

  lemma {:induction false} RetrieveGainOf(t: seq<Row<Retrieve>>, e: Event, named: Named)
    requires named.retrieve == Find(t, IdOf(e)) && (named.retrieve.Some? ==> NoRemoteHits(named.retrieve.value))
    ensures Gain(RetrieveRules(), t, e, IdOf(e), RetrieveHits) + RetrieveOver(e, named) == RetrieveCounted(e, named)
  {
    GainIsChange(RetrieveRules(), t, e, IdOf(e), RetrieveHits);
    if !e.RetrieveStart? && named.retrieve.Some? {
      RetrieveChange(e, named.retrieve.value);
    }
  }

  lemma {:induction false} TransferChange(e: Event, v: Transfer)
    requires !e.TransferStart?
    ensures e.TransferFinish?
            ==> Change(TransferRules(), e, e.id, v, TransferTokens)
                == (if e.now == 0.0 then 0 else v.tokens) - (if v.end != 0.0 then v.tokens else 0)
    ensures !e.TransferFinish? ==> Change(TransferRules(), e, IdOf(e), v, TransferTokens) == 0
  {
  }

  lemma {:induction false} TransferGainOf(t: seq<Row<Transfer>>, e: Event, named: Named)
    requires named.transfer == Find(t, IdOf(e))
    ensures Gain(TransferRules(), t, e, IdOf(e), TransferTokens) + TransferOver(e, named) == TransferCounted(e, named)
  {
    GainIsChange(TransferRules(), t, e, IdOf(e), TransferTokens);
    if !e.TransferStart? && named.transfer.Some? {
      TransferChange(e, named.transfer.value);
    }
  }

  predicate NoRemoteHits(v: Retrieve) {
    v.remoteHits == 0
  }

  lemma {:induction false} RemoteUnused(es: seq<Event>)
    ensures Kept(RetrieveRules(), es, NoRemoteHits)
  {
    forall i | 0 <= i < |es|
      ensures KeptAt(RetrieveRules(), es, i, NoRemoteHits)
    {
    }
  }

  lemma {:induction false} LookupGain(limits: Thresholds, es: seq<Event>, i: nat)
    requires i < |es|
    ensures var r, t, e := LookupRules(), TableAt(LookupRules(), es, i), es[i];
            && Gain(r, t, e, IdOf(e), LookupHits) + OverIn(es, LookupOver)(i) == CountedBy(limits, es, i).lookupHits
            && Gain(r, t, e, IdOf(e), ZeroHit) + OverIn(es, ZeroOver)(i) == CountedBy(limits, es, i).lookupZeroHits
  {
    FoundIff(LookupRules(), es, i, IdOf(es[i]));
    LookupGainOf(TableAt(LookupRules(), es, i), es[i], NamedBy(es, i));
    CountedTotals(limits, es[i], NamedBy(es, i));
  }

  lemma {:induction false} RetrieveGain(limits: Thresholds, es: seq<Event>, i: nat)
    requires i < |es|
    ensures Gain(RetrieveRules(), TableAt(RetrieveRules(), es, i), es[i], IdOf(es[i]), RetrieveHits) + OverIn(es, RetrieveOver)(i)
            == CountedBy(limits, es, i).hitTokens
  {
    var r, id := RetrieveRules(), IdOf(es[i]);
    FoundIff(r, es, i, id);
    if LifeAt(r, es, i, id).Active? {
      RemoteUnused(es);
      LifeKeeps(r, es, i, id, NoRemoteHits);
    }
    RetrieveGainOf(TableAt(r, es, i), es[i], NamedBy(es, i));
    CountedTotals(limits, es[i], NamedBy(es, i));
  }

  lemma {:induction false} TransferGain(limits: Thresholds, es: seq<Event>, i: nat)
    requires i < |es|
    ensures Gain(TransferRules(), TableAt(TransferRules(), es, i), es[i], IdOf(es[i]), TransferTokens) + OverIn(es, TransferOver)(i)
            == CountedBy(limits, es, i).transferredTokens
  {
    FoundIff(TransferRules(), es, i, IdOf(es[i]));
    TransferGainOf(TableAt(TransferRules(), es, i), es[i], NamedBy(es, i));
    CountedTotals(limits, es[i], NamedBy(es, i));
  }

  /** An event touches one request at most, and opens none that is done. */
  lemma {:induction false} TouchesOne(e: Event)
    ensures TouchesOnly(LookupRules(), e, IdOf(e)) && TouchesOnly(RetrieveRules(), e, IdOf(e)) && TouchesOnly(TransferRules(), e, IdOf(e))
    ensures OpensLookup(e).Some? ==> !OpensLookup(e).value.finished
    ensures OpensRetrieve(e).Some? ==> OpensRetrieve(e).value.end == 0.0
    ensures OpensTransfer(e).Some? ==> OpensTransfer(e).value.end == 0.0
  {
  }

  // ---- totals of every run ----

  /** One field of the pending counters, without what was counted beyond the finished requests. */
  function NetIn(pending: nat -> Counters, field: Counters -> int, snaps: nat -> bool, over: nat -> int): nat -> int {
    (i: nat) => field(pending(i)) - Since(snaps, over, i)
  }

  lemma {:induction false} NetFollows<T(!new)>(
    r: Rules<Event, T>, es: seq<Event>, f: T -> int, pending: nat -> Counters, counted: nat -> Counters,
    field: Counters -> int, over: nat -> int, i: nat)
    requires i < |es| && Additively(field) && r.harvests == IsSnapshot
    requires AccumulatesAt(Plus, Zero, pending, Snapshots(es), counted, i)
    requires TouchesOnly(r, es[i], IdOf(es[i])) && (r.opens(es[i]).Some? ==> !r.done(r.opens(es[i]).value))
    requires Gain(r, TableAt(r, es, i), es[i], IdOf(es[i]), f) + over(i) == field(counted(i))
    ensures Follows(r, es, f, NetIn(pending, field, Snapshots(es), over), IdOf, i)
  {
  }

  function LookupHitsOf(c: Counters): int {
    c.lookupHits
  }

  function ZeroHitsOf(c: Counters): int {
    c.lookupZeroHits
  }

  function HitTokensOf(c: Counters): int {
    c.hitTokens
  }

  function TransferredOf(c: Counters): int {
    c.transferredTokens
  }

  lemma {:induction false} FieldsAdditive()
    ensures Additively(LookupHitsOf) && Additively(ZeroHitsOf) && Additively(HitTokensOf) && Additively(TransferredOf)
  {
  }

  /** The total of a field is the sum over the finished requests and what was counted beyond them. */
  ghost predicate TotalIs<T>(limits: Thresholds, es: seq<Event>, n: nat, r: Rules<Event, T>, f: T -> int, field: Counters -> int, over: nat -> int)
    requires n < |es|
  {
    field(Made(limits, es)(n).counters) == Sum(HarvestAt(r, es, n), f) + Since(Snapshots(es), over, n)
  }

  lemma {:induction false} TotalFrom<T(!new)>(limits: Thresholds, es: seq<Event>, n: nat, r: Rules<Event, T>, f: T -> int, field: Counters -> int, over: nat -> int)
    requires n < |es| && es[n].Snapshot? && r.harvests == IsSnapshot && Additively(field)
    requires forall i: nat | i < |es| ::
               Follows(r, es, f, NetIn(PendingCounters(limits, es), field, Snapshots(es), over), IdOf, i)
    ensures TotalIs(limits, es, n, r, f, field, over)
  {
    MadeCounters(limits, es, n);
    TotalFollows(r, es, f, NetIn(PendingCounters(limits, es), field, Snapshots(es), over), IdOf, n);
    SumHarvest(r, es, n, f);
  }

  lemma {:induction false} LookupTotals(limits: Thresholds, es: seq<Event>, n: nat)
    requires n < |es| && es[n].Snapshot?
    ensures TotalIs(limits, es, n, LookupRules(), LookupHits, LookupHitsOf, OverIn(es, LookupOver))
    ensures TotalIs(limits, es, n, LookupRules(), ZeroHit, ZeroHitsOf, OverIn(es, ZeroOver))
  {
    var pending, counted, snaps := PendingCounters(limits, es), CountedIn(limits, es), Snapshots(es);
    FieldsAdditive();
    forall i: nat | i < |es|
      ensures Follows(LookupRules(), es, LookupHits, NetIn(pending, LookupHitsOf, snaps, OverIn(es, LookupOver)), IdOf, i)
      ensures Follows(LookupRules(), es, ZeroHit, NetIn(pending, ZeroHitsOf, snaps, OverIn(es, ZeroOver)), IdOf, i)
    {
      RunAccumulates(limits, es, i);
      TouchesOne(es[i]);
      LookupGain(limits, es, i);
      NetFollows(LookupRules(), es, LookupHits, pending, counted, LookupHitsOf, OverIn(es, LookupOver), i);
      NetFollows(LookupRules(), es, ZeroHit, pending, counted, ZeroHitsOf, OverIn(es, ZeroOver), i);
    }
    TotalFrom(limits, es, n, LookupRules(), LookupHits, LookupHitsOf, OverIn(es, LookupOver));
    TotalFrom(limits, es, n, LookupRules(), ZeroHit, ZeroHitsOf, OverIn(es, ZeroOver));
  }

  lemma {:induction false} RetrieveTotals(limits: Thresholds, es: seq<Event>, n: nat)
    requires n < |es| && es[n].Snapshot?
    ensures TotalIs(limits, es, n, RetrieveRules(), RetrieveHits, HitTokensOf, OverIn(es, RetrieveOver))
  {
    var pending, counted, snaps := PendingCounters(limits, es), CountedIn(limits, es), Snapshots(es);
    FieldsAdditive();
    forall i: nat | i < |es|
      ensures Follows(RetrieveRules(), es, RetrieveHits, NetIn(pending, HitTokensOf, snaps, OverIn(es, RetrieveOver)), IdOf, i)
    {
      RunAccumulates(limits, es, i);
      TouchesOne(es[i]);
      RetrieveGain(limits, es, i);
      NetFollows(RetrieveRules(), es, RetrieveHits, pending, counted, HitTokensOf, OverIn(es, RetrieveOver), i);
    }
    TotalFrom(limits, es, n, RetrieveRules(), RetrieveHits, HitTokensOf, OverIn(es, RetrieveOver));
  }

  lemma {:induction false} TransferTotals(limits: Thresholds, es: seq<Event>, n: nat)
    requires n < |es| && es[n].Snapshot?
    ensures TotalIs(limits, es, n, TransferRules(), TransferTokens, TransferredOf, OverIn(es, TransferOver))
  {
    var pending, counted, snaps := PendingCounters(limits, es), CountedIn(limits, es), Snapshots(es);
    FieldsAdditive();
    forall i: nat | i < |es|
      ensures Follows(TransferRules(), es, TransferTokens, NetIn(pending, TransferredOf, snaps, OverIn(es, TransferOver)), IdOf, i)
    {
      RunAccumulates(limits, es, i);
      TouchesOne(es[i]);
      TransferGain(limits, es, i);
      NetFollows(TransferRules(), es, TransferTokens, pending, counted, TransferredOf, OverIn(es, TransferOver), i);
    }
    TotalFrom(limits, es, n, TransferRules(), TransferTokens, TransferredOf, OverIn(es, TransferOver));
  }

  // ---- stored tokens ----

  function StoredOf(c: Counters): int {
    c.storedTokens
  }

  function StoreTokens(v: Store): int {
    v.tokens
  }

  /**
   How far the count of stored tokens gets ahead of the finished stores: it takes a store's tokens
   when the store starts and never their correction, and a finish is not counted at all.
   */
  function StoreOver(e: Event, found: Option<Store>): int {
    if e.StoreStart? then e.tokens
    else if e.StoreFinish? && found.Some? then
      var v := found.value;
      var tokens := if e.stored >= 0 then e.stored else v.tokens;
      (if v.end != 0.0 then v.tokens else 0) - (if EndTime(v.end, e.now) != 0.0 then tokens else 0)
    else 0
  }

  function StoreOverIn(es: seq<Event>): nat -> int {
    (i: nat) => if i < |es| then StoreOver(es[i], Find(TableAt(StoreRules(), es, i), IdOf(es[i]))) else 0
  }

  lemma {:induction false} StoreChange(e: Event, v: Store)
    requires !e.StoreStart?
    ensures Change(StoreRules(), e, IdOf(e), v, StoreTokens) == -StoreOver(e, Some(v))
  {
  }

  lemma {:induction false} StoredCounted(limits: Thresholds, e: Event, named: Named)
    ensures StoredOf(Added(limits, e, named)) == if e.StoreStart? then e.tokens else 0
  {
  }

  lemma {:induction false} StoreGain(limits: Thresholds, es: seq<Event>, i: nat)
    requires i < |es|
    ensures Gain(StoreRules(), TableAt(StoreRules(), es, i), es[i], IdOf(es[i]), StoreTokens) + StoreOverIn(es)(i)
            == StoredOf(CountedBy(limits, es, i))
  {
    var t, e := TableAt(StoreRules(), es, i), es[i];
    GainIsChange(StoreRules(), t, e, IdOf(e), StoreTokens);
    StoredCounted(limits, e, NamedBy(es, i));
    if !e.StoreStart? && Find(t, IdOf(e)).Some? {
      StoreChange(e, Find(t, IdOf(e)).value);
    }
  }

  lemma {:induction false} StoreTouchesOne(e: Event)
    ensures TouchesOnly(StoreRules(), e, IdOf(e)) && (OpensStore(e).Some? ==> OpensStore(e).value.end == 0.0)
    ensures Additively(StoredOf)
  {
  }

  lemma {:induction false} StoreTotals(limits: Thresholds, es: seq<Event>, n: nat)
    requires n < |es| && es[n].Snapshot?
    ensures TotalIs(limits, es, n, StoreRules(), StoreTokens, StoredOf, StoreOverIn(es))
  {
    var pending, counted, snaps := PendingCounters(limits, es), CountedIn(limits, es), Snapshots(es);
    StoreTouchesOne(es[n]);
    forall i: nat | i < |es|
      ensures Follows(StoreRules(), es, StoreTokens, NetIn(pending, StoredOf, snaps, StoreOverIn(es)), IdOf, i)
    {
      RunAccumulates(limits, es, i);
      StoreTouchesOne(es[i]);
      StoreGain(limits, es, i);
      NetFollows(StoreRules(), es, StoreTokens, pending, counted, StoredOf, StoreOverIn(es), i);
    }
    TotalFrom(limits, es, n, StoreRules(), StoreTokens, StoredOf, StoreOverIn(es));
  }

  lemma {:induction false} SumHarvest<T>(r: Rules<Event, T>, es: seq<Event>, n: nat, f: T -> int)
    requires n < |es| && r.harvests(es[n])
    ensures Sum(HarvestAt(r, es, n), f) == SumDone(TableAt(r, es, n), r.done, f)
  {
    var t := TableAt(r, es, n);
    SumSelected(t, |t|, r.done, f);
  }

  /**
   For every run: the hit and token totals of a report are the sums over the requests that
   finished in its interval, plus what repeated finishes overwrote and what ended at clock
   reading zero in that interval; stored tokens are counted ahead, when a store starts.
   */
  lemma {:induction false} TotalsExact(limits: Thresholds, es: seq<Event>, n: nat)
    requires n < |es| && es[n].Snapshot?
    ensures var c, snaps := Made(limits, es)(n).counters, Snapshots(es);
            && c.lookupHits == Sum(HarvestAt(LookupRules(), es, n), LookupHits) + Since(snaps, OverIn(es, LookupOver), n)
            && c.lookupZeroHits == Sum(HarvestAt(LookupRules(), es, n), ZeroHit) + Since(snaps, OverIn(es, ZeroOver), n)
            && c.hitTokens == Sum(HarvestAt(RetrieveRules(), es, n), RetrieveHits) + Since(snaps, OverIn(es, RetrieveOver), n)
            && c.transferredTokens == Sum(HarvestAt(TransferRules(), es, n), TransferTokens) + Since(snaps, OverIn(es, TransferOver), n)
            && c.storedTokens == Sum(HarvestAt(StoreRules(), es, n), StoreTokens) + Since(snaps, StoreOverIn(es), n)
  {
    StoreTotals(limits, es, n);
    LookupTotals(limits, es, n);
    RetrieveTotals(limits, es, n);
    TransferTotals(limits, es, n);
  }

  // ---- when the totals are the sums ----

  predicate Within(hits: int, tokens: int) {
    0 <= hits <= tokens
  }

  predicate LookupWithin(v: Lookup) {
    v.finished ==> Within(v.hits, v.tokens)
  }

  predicate RetrieveWithin(v: Retrieve) {
    Within(v.localHits, v.tokens) || (v.localHits == 0 && v.end == 0.0)
  }

  /** Every finish reports between no and all of the request's tokens as hits. */
  predicate HitsWithin(es: seq<Event>) {
    forall i | 0 <= i < |es| :: HitsWithinAt(es, i)
  }

  predicate HitsWithinAt(es: seq<Event>, i: nat)
    requires i < |es|
  {
    match es[i]
    case LookupFinish(id, hits, _) =>
      var life := LifeAt(LookupRules(), es, i, id);
      life.Active? ==> Within(hits, life.stats.tokens)
    case RetrieveFinish(id, hits, _) =>
      var life := LifeAt(RetrieveRules(), es, i, id);
      life.Active? ==> Within(hits, life.stats.tokens)
    case _ => true
  }

  lemma {:induction false} LookupsWithin(es: seq<Event>)
    requires HitsWithin(es)
    ensures Kept(LookupRules(), es, LookupWithin)
  {
    forall i | 0 <= i < |es|
      ensures KeptAt(LookupRules(), es, i, LookupWithin)
    {
      assert HitsWithinAt(es, i);
    }
  }

  lemma {:induction false} RetrievesWithin(es: seq<Event>)
    requires HitsWithin(es)
    ensures Kept(RetrieveRules(), es, RetrieveWithin)
  {
    forall i | 0 <= i < |es|
      ensures KeptAt(RetrieveRules(), es, i, RetrieveWithin)
    {
      assert HitsWithinAt(es, i);
    }
  }

  predicate TokensAtLeastZero(v: Transfer) {
    v.tokens >= 0
  }

  /** No transfer of a negative number of tokens. */
  predicate TransfersAtLeastZero(es: seq<Event>) {
    forall i | 0 <= i < |es| :: es[i].TransferStart? ==> es[i].tokens >= 0
  }

  lemma {:induction false} TransfersKept(es: seq<Event>)
    requires TransfersAtLeastZero(es)
    ensures Kept(TransferRules(), es, TokensAtLeastZero)
  {
    forall i | 0 <= i < |es|
      ensures KeptAt(TransferRules(), es, i, TokensAtLeastZero)
    {
    }
  }

  lemma {:induction false} OverOf(es: seq<Event>, over: (Event, Named) -> int, i: nat)
    ensures OverIn(es, over)(i) == if i < |es| then over(es[i], NamedBy(es, i)) else 0
  {
  }

  lemma {:induction false} ZeroOverAtLeastZero(es: seq<Event>, i: nat)
    ensures OverIn(es, ZeroOver)(i) >= 0
  {
    OverOf(es, ZeroOver, i);
  }

  lemma {:induction false} LookupOverAtLeastZero(es: seq<Event>, i: nat)
    requires HitsWithin(es)
    ensures OverIn(es, LookupOver)(i) >= 0
  {
    OverOf(es, LookupOver, i);
    if i < |es| && NamedBy(es, i).lookup.Some? {
      LookupsWithin(es);
      LifeKeeps(LookupRules(), es, i, IdOf(es[i]), LookupWithin);
    }
  }

  lemma {:induction false} RetrieveOverAtLeastZero(es: seq<Event>, i: nat)
    requires HitsWithin(es)
    ensures OverIn(es, RetrieveOver)(i) >= 0
  {
    OverOf(es, RetrieveOver, i);
    if i < |es| && NamedBy(es, i).retrieve.Some? {
      assert HitsWithinAt(es, i);
      RetrievesWithin(es);
      LifeKeeps(RetrieveRules(), es, i, IdOf(es[i]), RetrieveWithin);
    }
  }

  lemma {:induction false} TransferOverAtLeastZero(es: seq<Event>, i: nat)
    requires TransfersAtLeastZero(es)
    ensures OverIn(es, TransferOver)(i) >= 0
  {
    OverOf(es, TransferOver, i);
    if i < |es| && NamedBy(es, i).transfer.Some? {
      TransfersKept(es);
      LifeKeeps(TransferRules(), es, i, IdOf(es[i]), TokensAtLeastZero);
    }
  }

  /**
   For every run with hits and tokens in range: each total is the sum over the requests that
   finished in the interval if and only if no finish in the interval overwrites a value other
   than zero or counts one at clock reading zero.
   */
  lemma {:induction false} TotalsIff(limits: Thresholds, es: seq<Event>, n: nat)
    requires n < |es| && es[n].Snapshot? && HitsWithin(es) && TransfersAtLeastZero(es)
    ensures var c, snaps := Made(limits, es)(n).counters, Snapshots(es);
            && (c.lookupHits == Sum(HarvestAt(LookupRules(), es, n), LookupHits) <==> NoneIn(snaps, OverIn(es, LookupOver), n))
            && (c.lookupZeroHits == Sum(HarvestAt(LookupRules(), es, n), ZeroHit) <==> NoneIn(snaps, OverIn(es, ZeroOver), n))
            && (c.hitTokens == Sum(HarvestAt(RetrieveRules(), es, n), RetrieveHits) <==> NoneIn(snaps, OverIn(es, RetrieveOver), n))
            && (c.transferredTokens == Sum(HarvestAt(TransferRules(), es, n), TransferTokens) <==> NoneIn(snaps, OverIn(es, TransferOver), n))
  {
    TotalsExact(limits, es, n);
    forall i: nat
      ensures OverIn(es, LookupOver)(i) >= 0 && OverIn(es, ZeroOver)(i) >= 0
      ensures OverIn(es, RetrieveOver)(i) >= 0 && OverIn(es, TransferOver)(i) >= 0
    {
      LookupOverAtLeastZero(es, i);
      ZeroOverAtLeastZero(es, i);
      RetrieveOverAtLeastZero(es, i);
      TransferOverAtLeastZero(es, i);
    }
    SinceZeroIff(Snapshots(es), OverIn(es, LookupOver), n);
    SinceZeroIff(Snapshots(es), OverIn(es, ZeroOver), n);
    SinceZeroIff(Snapshots(es), OverIn(es, RetrieveOver), n);
    SinceZeroIff(Snapshots(es), OverIn(es, TransferOver), n);
  }

  /** No lookup, retrieval or transfer is finished twice. */
  predicate OnceEach(es: seq<Event>) {
    forall i, j | 0 <= i < j < |es| && !es[i].StoreFinish? :: !SameFinish(es[i], es[j])
  }

  /** No retrieval or transfer ends at clock reading zero. */
  predicate ClockRuns(es: seq<Event>) {
    forall i | 0 <= i < |es| :: es[i].TransferFinish? || es[i].RetrieveFinish? ==> es[i].now != 0.0
  }

  lemma {:induction false} NoLookupOver(es: seq<Event>, i: nat)
    requires OnceEach(es)
    ensures OverIn(es, LookupOver)(i) == 0 && OverIn(es, ZeroOver)(i) == 0
  {
    OverOf(es, LookupOver, i);
    OverOf(es, ZeroOver, i);
    if i < |es| && es[i].LookupFinish? && NamedBy(es, i).lookup.Some? {
      EndsSettle(es);
      NotYetDone(LookupRules(), EndsLookup, es, i, es[i].id);
    }
  }

  lemma {:induction false} NoRetrieveOver(es: seq<Event>, i: nat)
    requires OnceEach(es) && ClockRuns(es)
    ensures OverIn(es, RetrieveOver)(i) == 0
  {
    OverOf(es, RetrieveOver, i);
    if i < |es| && es[i].RetrieveFinish? && NamedBy(es, i).retrieve.Some? {
      EndsSettle(es);
      NotYetDone(RetrieveRules(), EndsRetrieve, es, i, es[i].id);
    }
  }

  lemma {:induction false} NoTransferOver(es: seq<Event>, i: nat)
    requires OnceEach(es) && ClockRuns(es)
    ensures OverIn(es, TransferOver)(i) == 0
  {
    OverOf(es, TransferOver, i);
    if i < |es| && es[i].TransferFinish? && NamedBy(es, i).transfer.Some? {
      EndsSettle(es);
      NotYetDone(TransferRules(), EndsTransfer, es, i, es[i].id);
    }
  }

  /** So when no request is finished twice and the clock runs, every total is such a sum. */
  lemma {:induction false} TotalsOfFinished(limits: Thresholds, es: seq<Event>, n: nat)
    requires n < |es| && OnceEach(es) && ClockRuns(es) && es[n].Snapshot?
    ensures var c := Made(limits, es)(n).counters;
            && c.lookupHits == Sum(HarvestAt(LookupRules(), es, n), LookupHits)
            && c.lookupZeroHits == Sum(HarvestAt(LookupRules(), es, n), ZeroHit)
            && c.hitTokens == Sum(HarvestAt(RetrieveRules(), es, n), RetrieveHits)
            && c.transferredTokens == Sum(HarvestAt(TransferRules(), es, n), TransferTokens)
  {
    TotalsExact(limits, es, n);
    forall i: nat
      ensures OverIn(es, LookupOver)(i) == 0 && OverIn(es, ZeroOver)(i) == 0
      ensures OverIn(es, RetrieveOver)(i) == 0 && OverIn(es, TransferOver)(i) == 0
    {
      NoLookupOver(es, i);
      NoRetrieveOver(es, i);
      NoTransferOver(es, i);
    }
    SinceZero(Snapshots(es), OverIn(es, LookupOver), n);
    SinceZero(Snapshots(es), OverIn(es, ZeroOver), n);
    SinceZero(Snapshots(es), OverIn(es, RetrieveOver), n);
    SinceZero(Snapshots(es), OverIn(es, TransferOver), n);
  }

  // ---- hit rates ----

  lemma {:induction false} RateUnit(hits: int, tokens: int)
    requires Within(hits, tokens) && tokens != 0
    ensures Unit(hits as real / tokens as real) && (hits as real / tokens as real == 0.0 <==> hits == 0)
  {
    var h, t := hits as real, tokens as real;
    var q := h / t;
    assert q * t == h;
  }

  lemma {:induction false} SumWithin<T>(t: seq<Row<T>>, k: nat, hits: T -> int, tokens: T -> int)
    requires k <= |t| && forall i | 0 <= i < |t| :: Within(hits(t[i].stats), tokens(t[i].stats))
    ensures Within(SumIn(t, k, hits), SumIn(t, k, tokens))
    decreases k
  {
    if k > 0 {
      SumWithin(t, k - 1, hits, tokens);
    }
  }

  /** Among lookups whose hits are within range, each has a non-zero rate or no hit. */
  lemma {:induction false} RatesOrZero(t: seq<Row<Lookup>>, k: nat)
    requires k <= |t| && forall i | 0 <= i < |t| :: Within(t[i].stats.hits, t[i].stats.tokens)
    ensures |NonZeroIn(t, k, LookupHitRate)| + SumIn(t, k, ZeroHit) == k
    ensures forall i | 0 <= i < |NonZeroIn(t, k, LookupHitRate)| :: Unit(NonZeroIn(t, k, LookupHitRate)[i])
    decreases k
  {
    if k > 0 {
      RatesOrZero(t, k - 1);
      var v := t[k - 1].stats;
      if v.tokens != 0 {
        RateUnit(v.hits, v.tokens);
      }
    }
  }

  lemma {:induction false} HarvestedLookups(es: seq<Event>, n: nat)
    requires n < |es| && HitsWithin(es)
    ensures var t := HarvestAt(LookupRules(), es, n);
            forall i | 0 <= i < |t| :: Within(t[i].stats.hits, t[i].stats.tokens)
  {
    var t := HarvestAt(LookupRules(), es, n);
    LookupsWithin(es);
    forall i | 0 <= i < |t|
      ensures Within(t[i].stats.hits, t[i].stats.tokens)
    {
      HarvestKeeps(LookupRules(), es, n, LookupWithin, t[i]);
    }
  }

  lemma {:induction false} HarvestedRetrieves(es: seq<Event>, n: nat)
    requires n < |es| && HitsWithin(es)
    ensures var t := HarvestAt(RetrieveRules(), es, n);
            forall i | 0 <= i < |t| :: Within(RetrieveHits(t[i].stats), RetrieveTokens(t[i].stats))
  {
    var t := HarvestAt(RetrieveRules(), es, n);
    RetrievesWithin(es);
    RemoteUnused(es);
    forall i | 0 <= i < |t|
      ensures Within(RetrieveHits(t[i].stats), RetrieveTokens(t[i].stats))
    {
      HarvestKeeps(RetrieveRules(), es, n, RetrieveWithin, t[i]);
      HarvestKeeps(RetrieveRules(), es, n, NoRemoteHits, t[i]);
    }
  }

  lemma {:induction false} ReportRates(s: State)
    ensures var r, looked, retrieved := ReportOf(s), Select(s.lookups, LookupDone, true), Select(s.retrieves, RetrieveDone, true);
            && r.lookupHitRates == NonZero(looked, LookupHitRate)
            && r.lookupHitRate == Rate(Sum(looked, LookupHits), Sum(looked, LookupTokens), 0.0)
            && r.retrieveHitRate == Rate(Sum(retrieved, RetrieveHits), Sum(retrieved, RetrieveTokens), 1.0)
  {
  }

  lemma {:induction false} MadeRates(limits: Thresholds, es: seq<Event>, n: nat)
    requires n < |es| && es[n].Snapshot?
    ensures var r, looked, retrieved := Made(limits, es)(n), HarvestAt(LookupRules(), es, n), HarvestAt(RetrieveRules(), es, n);
            && r.lookupHitRates == NonZero(looked, LookupHitRate)
            && r.lookupHitRate == Rate(Sum(looked, LookupHits), Sum(looked, LookupTokens), 0.0)
            && r.retrieveHitRate == Rate(Sum(retrieved, RetrieveHits), Sum(retrieved, RetrieveTokens), 1.0)
  {
    TablesAt(limits, es, n);
    ReportRates(StateAt(limits, es, n));
  }

  /**
   In every report the non-zero hit rates and the zero-hit lookups together are the lookups that
   finished in the interval and the zero-hit ones that a repeated finish overwrote; all rates lie
   between zero and one.
   */
  lemma {:induction false} HitRates(limits: Thresholds, es: seq<Event>, n: nat)
    requires n < |es| && es[n].Snapshot? && HitsWithin(es)
    ensures var r, over := Made(limits, es)(n), OverIn(es, ZeroOver);
            && |r.lookupHitRates| + r.counters.lookupZeroHits == |HarvestAt(LookupRules(), es, n)| + Since(Snapshots(es), over, n)
            && (|r.lookupHitRates| + r.counters.lookupZeroHits == |HarvestAt(LookupRules(), es, n)| <==> NoneIn(Snapshots(es), over, n))
            && (forall i | 0 <= i < |r.lookupHitRates| :: Unit(r.lookupHitRates[i]))
            && Unit(r.lookupHitRate) && Unit(r.retrieveHitRate)
  {
    var looked, retrieved := HarvestAt(LookupRules(), es, n), HarvestAt(RetrieveRules(), es, n);
    MadeRates(limits, es, n);
    LookupTotals(limits, es, n);
    forall i: nat
      ensures OverIn(es, ZeroOver)(i) >= 0
    {
      ZeroOverAtLeastZero(es, i);
    }
    SinceZeroIff(Snapshots(es), OverIn(es, ZeroOver), n);
    HarvestedLookups(es, n);
    RatesOrZero(looked, |looked|);
    HarvestedRetrieves(es, n);
    SumWithin(looked, |looked|, LookupHits, LookupTokens);
    SumWithin(retrieved, |retrieved|, RetrieveHits, RetrieveTokens);
    SumRateUnit(Sum(looked, LookupHits), Sum(looked, LookupTokens), 0.0);
    SumRateUnit(Sum(retrieved, RetrieveHits), Sum(retrieved, RetrieveTokens), 1.0);
  }

  lemma {:induction false} SumRateUnit(part: int, whole: int, none: real)
    requires Within(part, whole) && Unit(none)
    ensures Unit(Rate(part, whole, none))
  {
    if whole != 0 {
      RateUnit(part, whole);
    }
  }
}
