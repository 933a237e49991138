/**
 The statistics monitor as an object: tables of statistics objects that are shared with the
 callers who hold a request, counters, and lists. Every method is one step of the model.
 */
module StatsMonitor {
  import opened Text
  import opened Arithmetic
  import opened Requests
  import opened StatsModel
  import opened StatsSteps

  // ---- statistics objects ----

  class LookupStats {
    const requestId: nat
    var numTokens: int
    var hitTokens: int
    var isFinished: bool
    var startTime: real
    var endTime: real

    constructor (id: nat, tokens: int, now: real)
      ensures requestId == id && View() == Lookup(tokens, 0, false, now, 0.0)
    {
      requestId, numTokens, hitTokens, isFinished, startTime, endTime := id, tokens, 0, false, now, 0.0;
    }

    function View(): Lookup
      reads this
    {
      Lookup(numTokens, hitTokens, isFinished, startTime, endTime)
    }

    method Finish(hits: int, now: real)
      modifies this
      ensures View() == TouchLookup(LookupFinish(requestId, hits, now), requestId, old(View()))
    {
      hitTokens, isFinished := hits, true;
      if endTime == 0.0 {
        endTime := now;
      }
    }
  }

  class RetrieveStats {
    const requestId: nat
    var numTokens: int
    var localHitTokens: int
    var remoteHitTokens: int
    var startTime: real
    var endTime: real
    var processTokensTime: real
    var broadcastTime: real
    var toGpuTime: real
    var blockingGetTime: real   // these two are entries of the dictionary of detailed metrics,
    var connectorGetTime: real  // which are read as zero when they are missing

    constructor (id: nat, tokens: int, now: real)
      ensures requestId == id && View() == Retrieve(tokens, 0, 0, now, 0.0, 0.0, 0.0, 0.0, 0.0, 0.0)
    {
      requestId, numTokens, localHitTokens, remoteHitTokens := id, tokens, 0, 0;
      startTime, endTime, processTokensTime, broadcastTime, toGpuTime := now, 0.0, 0.0, 0.0, 0.0;
      blockingGetTime, connectorGetTime := 0.0, 0.0;
    }

    function View(): Retrieve
      reads this
    {
      Retrieve(numTokens, localHitTokens, remoteHitTokens, startTime, endTime,
               processTokensTime, broadcastTime, toGpuTime, blockingGetTime, connectorGetTime)
    }

    method Finish(hits: int, now: real)
      modifies this
      ensures View() == TouchRetrieve(RetrieveFinish(requestId, hits, now), requestId, old(View()))
    {
      localHitTokens := hits;
      if endTime == 0.0 {
        endTime := now;
      }
    }

    /** The end of a profiled block; the caller holds the object, not the monitor's lock. */
    method ProfileProcessTokens(seconds: real)
      modifies this`processTokensTime
      ensures View() == TouchRetrieve(RetrieveProfile(requestId, seconds, 0.0, 0.0, 0.0, 0.0), requestId, old(View()))
    {
      processTokensTime := processTokensTime + seconds;
    }

    method ProfileBroadcast(seconds: real)
      modifies this`broadcastTime
      ensures View() == TouchRetrieve(RetrieveProfile(requestId, 0.0, seconds, 0.0, 0.0, 0.0), requestId, old(View()))
    {
      broadcastTime := broadcastTime + seconds;
    }

    method ProfileToGpu(seconds: real)
      modifies this`toGpuTime
      ensures View() == TouchRetrieve(RetrieveProfile(requestId, 0.0, 0.0, seconds, 0.0, 0.0), requestId, old(View()))
    {
      toGpuTime := toGpuTime + seconds;
    }

    method AddBlockingGet(seconds: real)
      modifies this`blockingGetTime
      ensures View() == TouchRetrieve(RetrieveProfile(requestId, 0.0, 0.0, 0.0, seconds, 0.0), requestId, old(View()))
    {
      blockingGetTime := blockingGetTime + seconds;
    }

    method AddConnectorGet(seconds: real)
      modifies this`connectorGetTime
      ensures View() == TouchRetrieve(RetrieveProfile(requestId, 0.0, 0.0, 0.0, 0.0, seconds), requestId, old(View()))
    {
      connectorGetTime := connectorGetTime + seconds;
    }

    /** All of them, one after the other. */
    method AddTimes(process: real, broadcast: real, toGpu: real, blocking: real, connector: real)
      modifies this
      ensures View() == TouchRetrieve(RetrieveProfile(requestId, process, broadcast, toGpu, blocking, connector), requestId, old(View()))
    {
      ProfileProcessTokens(process);
      ProfileBroadcast(broadcast);
      ProfileToGpu(toGpu);
      AddBlockingGet(blocking);
      AddConnectorGet(connector);
    }
  }

  class StoreStats {
    const requestId: nat
    var numTokens: int
    var startTime: real
    var endTime: real
    var processTokensTime: real
    var fromGpuTime: real
    var putTime: real

    constructor (id: nat, tokens: int, now: real)
      ensures requestId == id && View() == Store(tokens, now, 0.0, 0.0, 0.0, 0.0)
    {
      requestId, numTokens, startTime, endTime := id, tokens, now, 0.0;
      processTokensTime, fromGpuTime, putTime := 0.0, 0.0, 0.0;
    }

    function View(): Store
      reads this
    {
      Store(numTokens, startTime, endTime, processTokensTime, fromGpuTime, putTime)
    }

    method Finish(stored: int, now: real)
      modifies this
      ensures View() == TouchStore(StoreFinish(requestId, stored, now), requestId, old(View()))
    {
      if endTime == 0.0 {
        endTime := now;
      }
      if stored >= 0 {
        numTokens := stored;
      }
    }

    method ProfileProcessTokens(seconds: real)
      modifies this`processTokensTime
      ensures View() == TouchStore(StoreProfile(requestId, seconds, 0.0, 0.0), requestId, old(View()))
    {
      processTokensTime := processTokensTime + seconds;
    }

    method ProfileFromGpu(seconds: real)
      modifies this`fromGpuTime
      ensures View() == TouchStore(StoreProfile(requestId, 0.0, seconds, 0.0), requestId, old(View()))
    {
      fromGpuTime := fromGpuTime + seconds;
    }

    method ProfilePut(seconds: real)
      modifies this`putTime
      ensures View() == TouchStore(StoreProfile(requestId, 0.0, 0.0, seconds), requestId, old(View()))
    {
      putTime := putTime + seconds;
    }

    /** All of them, one after the other. */
    method AddTimes(process: real, fromGpu: real, put: real)
      modifies this
      ensures View() == TouchStore(StoreProfile(requestId, process, fromGpu, put), requestId, old(View()))
    {
      ProfileProcessTokens(process);
      ProfileFromGpu(fromGpu);
      ProfilePut(put);
    }
  }

  class TransferStats {
    var numTokens: int
    var startTime: real
    var endTime: real

    constructor (tokens: int, now: real)
      ensures View() == Transfer(tokens, now, 0.0)
    {
      numTokens, startTime, endTime := tokens, now, 0.0;
    }

    function View(): Transfer
      reads this
    {
      Transfer(numTokens, startTime, endTime)
    }

    method Finish(now: real)
      modifies this`endTime
      ensures View() == old(View()).(end := now)
    {
      endTime := now;
    }
  }

  // ---- tables of objects ----

  /** Ids increase along a table and are below the next one to be issued. */
  predicate Ordered<T>(rows: seq<Row<T>>, next: nat) {
    && (forall i | 0 <= i < |rows| :: rows[i].id < next)
    && forall i, j | 0 <= i < j < |rows| :: rows[i].id < rows[j].id
  }

  ghost predicate NumberedLookups(issued: seq<LookupStats>) {
    forall i | 0 <= i < |issued| :: issued[i].requestId == i
  }

  ghost predicate GoodLookups(rows: seq<Row<LookupStats>>, next: nat) {
    Ordered(rows, next) && forall i | 0 <= i < |rows| :: rows[i].stats.requestId == rows[i].id
  }

  ghost predicate NumberedRetrieves(issued: seq<RetrieveStats>) {
    forall i | 0 <= i < |issued| :: issued[i].requestId == i
  }

  ghost predicate GoodRetrieves(rows: seq<Row<RetrieveStats>>, next: nat) {
    Ordered(rows, next) && forall i | 0 <= i < |rows| :: rows[i].stats.requestId == rows[i].id
  }

  ghost predicate NumberedStores(issued: seq<StoreStats>) {
    forall i | 0 <= i < |issued| :: issued[i].requestId == i
  }

  ghost predicate GoodStores(rows: seq<Row<StoreStats>>, next: nat) {
    Ordered(rows, next) && forall i | 0 <= i < |rows| :: rows[i].stats.requestId == rows[i].id
  }

  ghost predicate GoodTransfers(rows: seq<Row<TransferStats>>, next: nat) {
    Ordered(rows, next) && forall i, j | 0 <= i < j < |rows| :: rows[i].stats != rows[j].stats
  }

  /** Every row holds the object that was handed out for its id. */
  ghost predicate From<T>(rows: seq<Row<T>>, issued: seq<T>) {
    forall i | 0 <= i < |rows| :: rows[i].id < |issued| && rows[i].stats == issued[rows[i].id]
  }

  function Objects<T>(rows: seq<Row<T>>): set<T> {
    set i | 0 <= i < |rows| :: rows[i].stats
  }

  function Lookups(rows: seq<Row<LookupStats>>): seq<Row<Lookup>>
    reads Objects(rows)
  {
    seq(|rows|, i requires 0 <= i < |rows| reads Objects(rows) => Row(rows[i].id, rows[i].stats.View()))
  }

  function Retrieves(rows: seq<Row<RetrieveStats>>): seq<Row<Retrieve>>
    reads Objects(rows)
  {
    seq(|rows|, i requires 0 <= i < |rows| reads Objects(rows) => Row(rows[i].id, rows[i].stats.View()))
  }

  function Stores(rows: seq<Row<StoreStats>>): seq<Row<Store>>
    reads Objects(rows)
  {
    seq(|rows|, i requires 0 <= i < |rows| reads Objects(rows) => Row(rows[i].id, rows[i].stats.View()))
  }

  function Transfers(rows: seq<Row<TransferStats>>): seq<Row<Transfer>>
    reads Objects(rows)
  {
    seq(|rows|, i requires 0 <= i < |rows| reads Objects(rows) => Row(rows[i].id, rows[i].stats.View()))
  }

  /** Two tables with the same ids agree on which ids are present, and where. */
  lemma {:induction false} FindSame<T, U>(t: seq<Row<T>>, u: seq<Row<U>>, k: nat, id: nat)
    requires |t| == |u| && k <= |t| && forall i | 0 <= i < k :: t[i].id == u[i].id
    ensures FindIn(t, k, id).None? <==> FindIn(u, k, id).None?
    ensures FindIn(t, k, id).Some?
            ==> exists i :: 0 <= i < k && t[i].id == id && FindIn(t, k, id).value == t[i].stats && FindIn(u, k, id).value == u[i].stats
    decreases k
  {
    if k > 0 && t[k - 1].id != id {
      FindSame(t, u, k - 1, id);
    }
  }

  /** The rows of the requests still in progress, among the first `k`. */
  function KeptLookups(rows: seq<Row<LookupStats>>, k: nat): seq<Row<LookupStats>>
    requires k <= |rows|
    reads Objects(rows)`isFinished
  {
    if k == 0 then [] else KeptLookups(rows, k - 1) + If(!rows[k - 1].stats.isFinished, rows[k - 1])
  }

  lemma {:induction false} KeptLookupsView(rows: seq<Row<LookupStats>>, k: nat)
    requires k <= |rows|
    ensures Lookups(KeptLookups(rows, k)) == SelectIn(Lookups(rows), k, LookupDone, false)
    decreases k
  {
    if k > 0 {
      KeptLookupsView(rows, k - 1);
    }
  }

  lemma {:induction false} KeptLookupsFrom(rows: seq<Row<LookupStats>>, k: nat, issued: seq<LookupStats>)
    requires k <= |rows| && From(rows, issued)
    ensures From(KeptLookups(rows, k), issued)
    decreases k
  {
    if k > 0 {
      KeptLookupsFrom(rows, k - 1, issued);
    }
  }

  lemma {:induction false} KeptLookupsGood(rows: seq<Row<LookupStats>>, k: nat, next: nat)
    requires k <= |rows| && GoodLookups(rows, next)
    ensures GoodLookups(KeptLookups(rows, k), if k < |rows| then rows[k].id else next)
    decreases k
  {
    if k > 0 {
      KeptLookupsGood(rows, k - 1, next);
    }
  }

  /** The rows of the requests still in progress, among the first `k`. */
  function KeptRetrieves(rows: seq<Row<RetrieveStats>>, k: nat): seq<Row<RetrieveStats>>
    requires k <= |rows|
    reads Objects(rows)`endTime
  {
    if k == 0 then [] else KeptRetrieves(rows, k - 1) + If(rows[k - 1].stats.endTime == 0.0, rows[k - 1])
  }

  lemma {:induction false} KeptRetrievesView(rows: seq<Row<RetrieveStats>>, k: nat)
    requires k <= |rows|
    ensures Retrieves(KeptRetrieves(rows, k)) == SelectIn(Retrieves(rows), k, RetrieveDone, false)
    decreases k
  {
    if k > 0 {
      KeptRetrievesView(rows, k - 1);
    }
  }

  lemma {:induction false} KeptRetrievesFrom(rows: seq<Row<RetrieveStats>>, k: nat, issued: seq<RetrieveStats>)
    requires k <= |rows| && From(rows, issued)
    ensures From(KeptRetrieves(rows, k), issued)
    decreases k
  {
    if k > 0 {
      KeptRetrievesFrom(rows, k - 1, issued);
    }
  }

  lemma {:induction false} KeptRetrievesGood(rows: seq<Row<RetrieveStats>>, k: nat, next: nat)
    requires k <= |rows| && GoodRetrieves(rows, next)
    ensures GoodRetrieves(KeptRetrieves(rows, k), if k < |rows| then rows[k].id else next)
    decreases k
  {
    if k > 0 {
      KeptRetrievesGood(rows, k - 1, next);
    }
  }

  /** The rows of the requests still in progress, among the first `k`. */
  function KeptStores(rows: seq<Row<StoreStats>>, k: nat): seq<Row<StoreStats>>
    requires k <= |rows|
    reads Objects(rows)`endTime
  {
    if k == 0 then [] else KeptStores(rows, k - 1) + If(rows[k - 1].stats.endTime == 0.0, rows[k - 1])
  }

  lemma {:induction false} KeptStoresView(rows: seq<Row<StoreStats>>, k: nat)
    requires k <= |rows|
    ensures Stores(KeptStores(rows, k)) == SelectIn(Stores(rows), k, StoreDone, false)
    decreases k
  {
    if k > 0 {
      KeptStoresView(rows, k - 1);
    }
  }

  lemma {:induction false} KeptStoresFrom(rows: seq<Row<StoreStats>>, k: nat, issued: seq<StoreStats>)
    requires k <= |rows| && From(rows, issued)
    ensures From(KeptStores(rows, k), issued)
    decreases k
  {
    if k > 0 {
      KeptStoresFrom(rows, k - 1, issued);
    }
  }

  lemma {:induction false} KeptStoresGood(rows: seq<Row<StoreStats>>, k: nat, next: nat)
    requires k <= |rows| && GoodStores(rows, next)
    ensures GoodStores(KeptStores(rows, k), if k < |rows| then rows[k].id else next)
    decreases k
  {
    if k > 0 {
      KeptStoresGood(rows, k - 1, next);
    }
  }

  /** The rows of the requests still in progress, among the first `k`. */
  function KeptTransfers(rows: seq<Row<TransferStats>>, k: nat): seq<Row<TransferStats>>
    requires k <= |rows|
    reads Objects(rows)`endTime
  {
    if k == 0 then [] else KeptTransfers(rows, k - 1) + If(rows[k - 1].stats.endTime == 0.0, rows[k - 1])
  }

  lemma {:induction false} KeptTransfersView(rows: seq<Row<TransferStats>>, k: nat)
    requires k <= |rows|
    ensures Transfers(KeptTransfers(rows, k)) == SelectIn(Transfers(rows), k, TransferDone, false)
    decreases k
  {
    if k > 0 {
      KeptTransfersView(rows, k - 1);
    }
  }

  lemma {:induction false} KeptTransfersFrom(rows: seq<Row<TransferStats>>, k: nat, issued: seq<TransferStats>)
    requires k <= |rows| && From(rows, issued)
    ensures From(KeptTransfers(rows, k), issued)
    decreases k
  {
    if k > 0 {
      KeptTransfersFrom(rows, k - 1, issued);
    }
  }

  lemma {:induction false} KeptTransfersGood(rows: seq<Row<TransferStats>>, k: nat, next: nat)
    requires k <= |rows| && GoodTransfers(rows, next)
    ensures GoodTransfers(KeptTransfers(rows, k), if k < |rows| then rows[k].id else next)
    ensures forall i, j | 0 <= i < |KeptTransfers(rows, k)| && k <= j < |rows| :: KeptTransfers(rows, k)[i].stats != rows[j].stats
    decreases k
  {
    if k > 0 {
      KeptTransfersGood(rows, k - 1, next);
    }
  }

  class Monitor {
    const limits: Thresholds
    var counters: Counters
    var getTimes: seq<real>
    var putTimes: seq<real>
    var syncTimes: seq<real>
    var lifespans: seq<real>
    var lookups: seq<Row<LookupStats>>
    var nextLookup: nat
    var retrieves: seq<Row<RetrieveStats>>
    var nextRetrieve: nat
    var stores: seq<Row<StoreStats>>
    var nextStore: nat
    var transfers: seq<Row<TransferStats>>
    var nextTransfer: nat
    var lastWarning: real
    var skippedWarnings: nat
    var gauges: Gauges
    ghost var issuedLookups: seq<LookupStats>  // the objects handed out so far, by id
    ghost var issuedRetrieves: seq<RetrieveStats>
    ghost var issuedStores: seq<StoreStats>
    ghost var issuedTransfers: seq<TransferStats>

    ghost predicate Valid()
      reads this`lookups, this`nextLookup, this`issuedLookups, this`retrieves, this`nextRetrieve, this`issuedRetrieves,
            this`stores, this`nextStore, this`issuedStores, this`transfers, this`nextTransfer, this`issuedTransfers
    {
      !Damaged()
    }

    /** Some table is not what the objects handed out make it. */
    ghost predicate Damaged()
      reads this`lookups, this`nextLookup, this`issuedLookups, this`retrieves, this`nextRetrieve, this`issuedRetrieves,
            this`stores, this`nextStore, this`issuedStores, this`transfers, this`nextTransfer, this`issuedTransfers
    {
      !ValidLookups() || !ValidRetrieves() || !ValidStores() || !ValidTransfers()
    }

    function View(): State
      reads this, Objects(lookups), Objects(retrieves), Objects(stores), Objects(transfers)
    {
      State(limits, counters, getTimes, putTimes, syncTimes, lifespans,
            Lookups(lookups), nextLookup, Retrieves(retrieves), nextRetrieve,
            Stores(stores), nextStore, Transfers(transfers), nextTransfer,
            Limiter(lastWarning, skippedWarnings), gauges)
    }

    constructor (limits: Thresholds)
      ensures Valid() && View() == Initial(limits)
      ensures issuedLookups == [] && issuedRetrieves == [] && issuedStores == [] && issuedTransfers == []
    {
      this.limits, counters := limits, Zero;
      getTimes, putTimes, syncTimes, lifespans := [], [], [], [];
      lookups, retrieves, stores, transfers := [], [], [], [];
      nextLookup, nextRetrieve, nextStore, nextTransfer := 0, 0, 0, 0;
      issuedLookups, issuedRetrieves, issuedStores, issuedTransfers := [], [], [], [];
      lastWarning, skippedWarnings, gauges := 0.0, 0, NoGauges;
    }

    // ---- lookups ----

    ghost predicate ValidLookups()
      reads this`lookups, this`nextLookup, this`issuedLookups
    {
      GoodLookups(lookups, nextLookup) && |issuedLookups| == nextLookup && From(lookups, issuedLookups) && NumberedLookups(issuedLookups)
    }

    /** The object handed out for the id of `stats`, if there is one, is `stats` itself; that never changes. */
    ghost predicate KnowsLookup(stats: LookupStats)
      reads this`issuedLookups
    {
      stats.requestId < |issuedLookups| ==> issuedLookups[stats.requestId] == stats
    }

    ghost predicate ShowsLookup(stats: LookupStats)
      reads this`lookups
    {
      forall i | 0 <= i < |lookups| :: lookups[i].id == stats.requestId ==> lookups[i].stats == stats
    }

    /** So the table's entry for that id, if there is one, is `stats` too. */
    lemma {:induction false} KnownLookupShows(stats: LookupStats)
      requires ValidLookups() && KnowsLookup(stats)
      ensures ShowsLookup(stats)
    {
    }

    method OpenLookup(tokens: int, now: real) returns (stats: LookupStats)
      requires ValidLookups()
      modifies this`counters, this`lookups, this`nextLookup, this`issuedLookups
      ensures ValidLookups() && fresh(stats) && issuedLookups == old(issuedLookups) + [stats] && stats.requestId == old(nextLookup)
      ensures counters == old(counters).Plus(Added(limits, LookupStart(tokens, now), Nobody))
      ensures Lookups(lookups) == TableStep(LookupRules(), old(Lookups(lookups)), old(nextLookup), LookupStart(tokens, now))
      ensures nextLookup == old(nextLookup) + 1
    {
      stats := new LookupStats(nextLookup, tokens, now);
      counters := counters.(lookupRequests := counters.lookupRequests + 1, lookupTokens := counters.lookupTokens + tokens);
      lookups := lookups + [Row(nextLookup, stats)];
      issuedLookups := issuedLookups + [stats];
      nextLookup := nextLookup + 1;
    }

    method FinishLookup(stats: LookupStats, hits: int, now: real) returns (raised: bool)
      requires GoodLookups(lookups, nextLookup) && ShowsLookup(stats)
      modifies this`counters, stats
      ensures raised == Find(old(Lookups(lookups)), stats.requestId).None?
      ensures var e := LookupFinish(stats.requestId, hits, now);
              var found := Find(old(Lookups(lookups)), stats.requestId);
              && counters == old(counters).Plus(Added(limits, e, Named(found, None, None)))
              && Lookups(lookups) == TableStep(LookupRules(), old(Lookups(lookups)), nextLookup, e)
    {
      ghost var e, before := LookupFinish(stats.requestId, hits, now), Lookups(lookups);
      FindSame(before, lookups, |lookups|, stats.requestId);
      if Find(lookups, stats.requestId).None? {
        NotFoundUntouched(LookupRules(), before, e, stats.requestId);
        return true;
      }
      raised := false;
      stats.Finish(hits, now);
      CountLookup(hits);
    }

    method CountLookup(hits: int)
      modifies this`counters
      ensures counters == old(counters).Plus(Zero.(lookupHits := hits, lookupZeroHits := Bit(hits == 0)))
    {
      counters := counters.(lookupHits := counters.lookupHits + hits);
      if hits == 0 {
        counters := counters.(lookupZeroHits := counters.lookupZeroHits + 1);
      }
    }

    /** The request as a change of the whole monitor. */
    method OpenLookupIn(tokens: int, now: real) returns (stats: LookupStats)
      requires Valid()
      modifies this`counters, this`lookups, this`nextLookup, this`issuedLookups
      ensures Valid() && fresh(stats) && issuedLookups == old(issuedLookups) + [stats] && stats.requestId == old(nextLookup)
      ensures var s, e := old(View()), LookupStart(tokens, now);
              View() == s.(counters := s.counters.Plus(Added(limits, e, Nobody)),
                           lookups := TableStep(LookupRules(), s.lookups, s.nextLookup, e), nextLookup := s.nextLookup + 1)
    {
      ghost var before := View();
      stats := OpenLookup(tokens, now);
      assert Retrieves(retrieves) == before.retrieves;
      assert Stores(stores) == before.stores;
      assert Transfers(transfers) == before.transfers;
    }

    method OnLookupRequest(tokens: int, now: real) returns (stats: LookupStats)
      requires Valid()
      modifies this`counters, this`lookups, this`nextLookup, this`issuedLookups
      ensures Valid() && fresh(stats) && issuedLookups == old(issuedLookups) + [stats] && stats.requestId == old(nextLookup)
      ensures View() == Step(old(View()), LookupStart(tokens, now))
    {
      LookupStartStep(View(), tokens, now);
      stats := OpenLookupIn(tokens, now);
    }

    method OnLookupFinished(stats: LookupStats, hits: int, now: real) returns (raised: bool)
      requires Valid() && KnowsLookup(stats)
      modifies this`counters, stats
      ensures Valid() && raised == Raises(old(View()), LookupFinish(stats.requestId, hits, now))
      ensures View() == Step(old(View()), LookupFinish(stats.requestId, hits, now))
    {
      ghost var before, e := View(), LookupFinish(stats.requestId, hits, now);
      KnownLookupShows(stats);
      raised := FinishLookup(stats, hits, now);
      LookupFinishStep(before, e);
      assert Retrieves(retrieves) == before.retrieves;
      assert Stores(stores) == before.stores;
      assert Transfers(transfers) == before.transfers;
    }

    // ---- retrievals ----

    ghost predicate ValidRetrieves()
      reads this`retrieves, this`nextRetrieve, this`issuedRetrieves
    {
      GoodRetrieves(retrieves, nextRetrieve) && |issuedRetrieves| == nextRetrieve && From(retrieves, issuedRetrieves) && NumberedRetrieves(issuedRetrieves)
    }

    /** The object handed out for the id of `stats`, if there is one, is `stats` itself; that never changes. */
    ghost predicate KnowsRetrieve(stats: RetrieveStats)
      reads this`issuedRetrieves
    {
      stats.requestId < |issuedRetrieves| ==> issuedRetrieves[stats.requestId] == stats
    }

    ghost predicate ShowsRetrieve(stats: RetrieveStats)
      reads this`retrieves
    {
      forall i | 0 <= i < |retrieves| :: retrieves[i].id == stats.requestId ==> retrieves[i].stats == stats
    }

    /** So the table's entry for that id, if there is one, is `stats` too. */
    lemma {:induction false} KnownRetrieveShows(stats: RetrieveStats)
      requires ValidRetrieves() && KnowsRetrieve(stats)
      ensures ShowsRetrieve(stats)
    {
    }

    method OpenRetrieve(tokens: int, now: real) returns (stats: RetrieveStats)
      requires ValidRetrieves()
      modifies this`counters, this`retrieves, this`nextRetrieve, this`issuedRetrieves
      ensures ValidRetrieves() && fresh(stats) && issuedRetrieves == old(issuedRetrieves) + [stats] && stats.requestId == old(nextRetrieve)
      ensures counters == old(counters).Plus(Added(limits, RetrieveStart(tokens, now), Nobody))
      ensures Retrieves(retrieves) == TableStep(RetrieveRules(), old(Retrieves(retrieves)), old(nextRetrieve), RetrieveStart(tokens, now))
      ensures nextRetrieve == old(nextRetrieve) + 1
    {
      stats := new RetrieveStats(nextRetrieve, tokens, now);
      counters := counters.(retrieveRequests := counters.retrieveRequests + 1, requestedTokens := counters.requestedTokens + tokens);
      retrieves := retrieves + [Row(nextRetrieve, stats)];
      issuedRetrieves := issuedRetrieves + [stats];
      nextRetrieve := nextRetrieve + 1;
    }

    method FinishRetrieve(stats: RetrieveStats, hits: int, now: real) returns (raised: bool, warnings: seq<Warning>)
      requires GoodRetrieves(retrieves, nextRetrieve) && ShowsRetrieve(stats)
      modifies this`counters, this`lastWarning, this`skippedWarnings, stats
      ensures raised == Find(old(Retrieves(retrieves)), stats.requestId).None?
      ensures var e := RetrieveFinish(stats.requestId, hits, now);
              var named := Named(None, Find(old(Retrieves(retrieves)), stats.requestId), None);
              && counters == old(counters).Plus(Added(limits, e, named))
              && Retrieves(retrieves) == TableStep(RetrieveRules(), old(Retrieves(retrieves)), nextRetrieve, e)
              && (Limiter(lastWarning, skippedWarnings), warnings)
                 == Warn(Limiter(old(lastWarning), old(skippedWarnings)), Slow(limits, e, named), now)
    {
      ghost var e, before := RetrieveFinish(stats.requestId, hits, now), Retrieves(retrieves);
      FindSame(before, retrieves, |retrieves|, stats.requestId);
      warnings := [];
      if Find(retrieves, stats.requestId).None? {
        NotFoundUntouched(RetrieveRules(), before, e, stats.requestId);
        return true, [];
      }
      raised := false;
      stats.Finish(hits, now);
      var v := stats.View();
      CountRetrieved(v, hits);
      if SlowByTime(limits, v) || SlowBySpeed(limits, v) {
        warnings := LimitWarnings(now);
      }
    }

    method CountRetrieved(v: Retrieve, hits: int)
      modifies this`counters
      ensures counters == old(counters).Plus(
                Zero.(hitTokens := hits, slowByTime := Bit(SlowByTime(limits, v)), slowBySpeed := Bit(SlowBySpeed(limits, v))))
    {
      counters := counters.(hitTokens := counters.hitTokens + hits);
      if SlowByTime(limits, v) {
        counters := counters.(slowByTime := counters.slowByTime + 1);
      }
      if SlowBySpeed(limits, v) {
        counters := counters.(slowBySpeed := counters.slowBySpeed + 1);
      }
    }

    method LimitWarnings(now: real) returns (warnings: seq<Warning>)
      modifies this`lastWarning, this`skippedWarnings
      ensures (Limiter(lastWarning, skippedWarnings), warnings)
              == Warn(Limiter(old(lastWarning), old(skippedWarnings)), true, now)
    {
      if now - lastWarning > 10.0 {
        warnings := [Warning(now, skippedWarnings)];
        lastWarning := now;
        skippedWarnings := 0;
      } else {
        warnings := [];
        skippedWarnings := skippedWarnings + 1;
      }
    }

    /** The request as a change of the whole monitor. */
    method OpenRetrieveIn(tokens: int, now: real) returns (stats: RetrieveStats)
      requires Valid()
      modifies this`counters, this`retrieves, this`nextRetrieve, this`issuedRetrieves
      ensures Valid() && fresh(stats) && issuedRetrieves == old(issuedRetrieves) + [stats] && stats.requestId == old(nextRetrieve)
      ensures var s, e := old(View()), RetrieveStart(tokens, now);
              View() == s.(counters := s.counters.Plus(Added(limits, e, Nobody)),
                           retrieves := TableStep(RetrieveRules(), s.retrieves, s.nextRetrieve, e), nextRetrieve := s.nextRetrieve + 1)
    {
      ghost var before := View();
      stats := OpenRetrieve(tokens, now);
      assert Lookups(lookups) == before.lookups;
      assert Stores(stores) == before.stores;
      assert Transfers(transfers) == before.transfers;
    }

    method OnRetrieveRequest(tokens: int, now: real) returns (stats: RetrieveStats)
      requires Valid()
      modifies this`counters, this`retrieves, this`nextRetrieve, this`issuedRetrieves
      ensures Valid() && fresh(stats) && issuedRetrieves == old(issuedRetrieves) + [stats] && stats.requestId == old(nextRetrieve)
      ensures View() == Step(old(View()), RetrieveStart(tokens, now))
    {
      RetrieveStartStep(View(), tokens, now);
      stats := OpenRetrieveIn(tokens, now);
    }

    /** The finish as a change of the whole monitor. */
    method FinishRetrieveIn(stats: RetrieveStats, hits: int, now: real) returns (raised: bool, warnings: seq<Warning>)
      requires Valid() && KnowsRetrieve(stats)
      modifies this`counters, this`lastWarning, this`skippedWarnings, stats
      ensures Valid() && raised == Find(old(View()).retrieves, stats.requestId).None?
      ensures var s, e := old(View()), RetrieveFinish(stats.requestId, hits, now);
              var named := Named(None, Find(s.retrieves, stats.requestId), None);
              var warned := Warn(s.limiter, Slow(limits, e, named), now);
              && View() == s.(counters := s.counters.Plus(Added(limits, e, named)), limiter := warned.0,
                              retrieves := TableStep(RetrieveRules(), s.retrieves, s.nextRetrieve, e))
              && warnings == warned.1
    {
      ghost var before := View();
      KnownRetrieveShows(stats);
      raised, warnings := FinishRetrieve(stats, hits, now);
      assert Lookups(lookups) == before.lookups;
      assert Stores(stores) == before.stores;
      assert Transfers(transfers) == before.transfers;
    }

    method OnRetrieveFinished(stats: RetrieveStats, hits: int, now: real) returns (raised: bool, warnings: seq<Warning>)
      requires Valid() && KnowsRetrieve(stats)
      modifies this`counters, this`lastWarning, this`skippedWarnings, stats
      ensures Valid() && raised == Raises(old(View()), RetrieveFinish(stats.requestId, hits, now))
      ensures View() == Step(old(View()), RetrieveFinish(stats.requestId, hits, now))
      ensures var s, e := old(View()), RetrieveFinish(stats.requestId, hits, now);
              warnings == Warn(s.limiter, Slow(limits, e, Named(None, Find(s.retrieves, stats.requestId), None)), now).1
    {
      RetrieveFinishStep(View(), RetrieveFinish(stats.requestId, hits, now));
      raised, warnings := FinishRetrieveIn(stats, hits, now);
    }

    /** The profiled blocks of one request, whose object the caller updates without the monitor's lock. */
    method ProfileRetrieve(stats: RetrieveStats, process: real, broadcast: real, toGpu: real, blocking: real, connector: real)
      requires Valid() && KnowsRetrieve(stats)
      modifies stats
      ensures Valid() && View() == Step(old(View()), RetrieveProfile(stats.requestId, process, broadcast, toGpu, blocking, connector))
    {
      ghost var before, e := View(), RetrieveProfile(stats.requestId, process, broadcast, toGpu, blocking, connector);
      KnownRetrieveShows(stats);
      AddRetrieveTimes(stats, process, broadcast, toGpu, blocking, connector);
      RetrieveProfileStep(before, e);
      assert Lookups(lookups) == before.lookups;
      assert Stores(stores) == before.stores;
      assert Transfers(transfers) == before.transfers;
    }

    method AddRetrieveTimes(stats: RetrieveStats, process: real, broadcast: real, toGpu: real, blocking: real, connector: real)
      requires GoodRetrieves(retrieves, nextRetrieve) && ShowsRetrieve(stats)
      modifies stats
      ensures Retrieves(retrieves) == TableStep(RetrieveRules(), old(Retrieves(retrieves)), nextRetrieve, RetrieveProfile(stats.requestId, process, broadcast, toGpu, blocking, connector))
    {
      stats.AddTimes(process, broadcast, toGpu, blocking, connector);
    }

    // ---- stores ----

    ghost predicate ValidStores()
      reads this`stores, this`nextStore, this`issuedStores
    {
      GoodStores(stores, nextStore) && |issuedStores| == nextStore && From(stores, issuedStores) && NumberedStores(issuedStores)
    }

    /** The object handed out for the id of `stats`, if there is one, is `stats` itself; that never changes. */
    ghost predicate KnowsStore(stats: StoreStats)
      reads this`issuedStores
    {
      stats.requestId < |issuedStores| ==> issuedStores[stats.requestId] == stats
    }

    ghost predicate ShowsStore(stats: StoreStats)
      reads this`stores
    {
      forall i | 0 <= i < |stores| :: stores[i].id == stats.requestId ==> stores[i].stats == stats
    }

    /** So the table's entry for that id, if there is one, is `stats` too. */
    lemma {:induction false} KnownStoreShows(stats: StoreStats)
      requires ValidStores() && KnowsStore(stats)
      ensures ShowsStore(stats)
    {
    }

    method OpenStore(tokens: int, now: real) returns (stats: StoreStats)
      requires ValidStores()
      modifies this`counters, this`stores, this`nextStore, this`issuedStores
      ensures ValidStores() && fresh(stats) && issuedStores == old(issuedStores) + [stats] && stats.requestId == old(nextStore)
      ensures counters == old(counters).Plus(Added(limits, StoreStart(tokens, now), Nobody))
      ensures Stores(stores) == TableStep(StoreRules(), old(Stores(stores)), old(nextStore), StoreStart(tokens, now))
      ensures nextStore == old(nextStore) + 1
    {
      stats := new StoreStats(nextStore, tokens, now);
      counters := counters.(storeRequests := counters.storeRequests + 1, storedTokens := counters.storedTokens + tokens);
      stores := stores + [Row(nextStore, stats)];
      issuedStores := issuedStores + [stats];
      nextStore := nextStore + 1;
    }

    method FinishStore(stats: StoreStats, stored: int, now: real) returns (raised: bool)
      requires GoodStores(stores, nextStore) && ShowsStore(stats)
      modifies stats
      ensures raised == Find(old(Stores(stores)), stats.requestId).None?
      ensures Stores(stores) == TableStep(StoreRules(), old(Stores(stores)), nextStore, StoreFinish(stats.requestId, stored, now))
    {
      ghost var e, before := StoreFinish(stats.requestId, stored, now), Stores(stores);
      FindSame(before, stores, |stores|, stats.requestId);
      if Find(stores, stats.requestId).None? {
        NotFoundUntouched(StoreRules(), before, e, stats.requestId);
        return true;
      }
      raised := false;
      stats.Finish(stored, now);
    }

    /** The request as a change of the whole monitor. */
    method OpenStoreIn(tokens: int, now: real) returns (stats: StoreStats)
      requires Valid()
      modifies this`counters, this`stores, this`nextStore, this`issuedStores
      ensures Valid() && fresh(stats) && issuedStores == old(issuedStores) + [stats] && stats.requestId == old(nextStore)
      ensures var s, e := old(View()), StoreStart(tokens, now);
              View() == s.(counters := s.counters.Plus(Added(limits, e, Nobody)),
                           stores := TableStep(StoreRules(), s.stores, s.nextStore, e), nextStore := s.nextStore + 1)
    {
      ghost var before := View();
      stats := OpenStore(tokens, now);
      assert Lookups(lookups) == before.lookups;
      assert Retrieves(retrieves) == before.retrieves;
      assert Transfers(transfers) == before.transfers;
    }

    method OnStoreRequest(tokens: int, now: real) returns (stats: StoreStats)
      requires Valid()
      modifies this`counters, this`stores, this`nextStore, this`issuedStores
      ensures Valid() && fresh(stats) && issuedStores == old(issuedStores) + [stats] && stats.requestId == old(nextStore)
      ensures View() == Step(old(View()), StoreStart(tokens, now))
    {
      StoreStartStep(View(), tokens, now);
      stats := OpenStoreIn(tokens, now);
    }

    method OnStoreFinished(stats: StoreStats, stored: int, now: real) returns (raised: bool)
      requires Valid() && KnowsStore(stats)
      modifies stats
      ensures Valid() && raised == Raises(old(View()), StoreFinish(stats.requestId, stored, now))
      ensures View() == Step(old(View()), StoreFinish(stats.requestId, stored, now))
    {
      ghost var before, e := View(), StoreFinish(stats.requestId, stored, now);
      KnownStoreShows(stats);
      raised := FinishStore(stats, stored, now);
      StoreFinishStep(before, e);
      assert Lookups(lookups) == before.lookups;
      assert Retrieves(retrieves) == before.retrieves;
      assert Transfers(transfers) == before.transfers;
    }

    /** The profiled blocks of one request, whose object the caller updates without the monitor's lock. */
    method ProfileStore(stats: StoreStats, process: real, fromGpu: real, put: real)
      requires Valid() && KnowsStore(stats)
      modifies stats
      ensures Valid() && View() == Step(old(View()), StoreProfile(stats.requestId, process, fromGpu, put))
    {
      ghost var before, e := View(), StoreProfile(stats.requestId, process, fromGpu, put);
      KnownStoreShows(stats);
      AddStoreTimes(stats, process, fromGpu, put);
      StoreProfileStep(before, e);
      assert Lookups(lookups) == before.lookups;
      assert Retrieves(retrieves) == before.retrieves;
      assert Transfers(transfers) == before.transfers;
    }

    method AddStoreTimes(stats: StoreStats, process: real, fromGpu: real, put: real)
      requires GoodStores(stores, nextStore) && ShowsStore(stats)
      modifies stats
      ensures Stores(stores) == TableStep(StoreRules(), old(Stores(stores)), nextStore, StoreProfile(stats.requestId, process, fromGpu, put))
    {
      stats.AddTimes(process, fromGpu, put);
    }

    // ---- transfers between peers ----

    ghost predicate ValidTransfers()
      reads this`transfers, this`nextTransfer, this`issuedTransfers
    {
      GoodTransfers(transfers, nextTransfer) && |issuedTransfers| == nextTransfer && From(transfers, issuedTransfers)
    }

    method OpenTransfer(tokens: int, now: real) returns (id: nat)
      requires ValidTransfers()
      modifies this`counters, this`transfers, this`nextTransfer, this`issuedTransfers
      ensures ValidTransfers() && id == old(nextTransfer) && nextTransfer == id + 1
      ensures |issuedTransfers| == id + 1 && issuedTransfers == old(issuedTransfers) + [issuedTransfers[id]] && fresh(issuedTransfers[id])
      ensures counters == old(counters).Plus(Added(limits, TransferStart(tokens, now), Nobody))
      ensures Transfers(transfers) == TableStep(TransferRules(), old(Transfers(transfers)), old(nextTransfer), TransferStart(tokens, now))
    {
      counters := counters.(transferRequests := counters.transferRequests + 1);
      var stats := new TransferStats(tokens, now);
      transfers := transfers + [Row(nextTransfer, stats)];
      issuedTransfers := issuedTransfers + [stats];
      nextTransfer := nextTransfer + 1;
      id := nextTransfer - 1;
    }

    method FinishTransfer(id: nat, now: real) returns (raised: bool)
      requires GoodTransfers(transfers, nextTransfer)
      modifies this`counters, Objects(transfers)
      ensures raised == Find(old(Transfers(transfers)), id).None?
      ensures var e := TransferFinish(id, now);
              var named := Named(None, None, Find(old(Transfers(transfers)), id));
              && counters == old(counters).Plus(Added(limits, e, named))
              && Transfers(transfers) == TableStep(TransferRules(), old(Transfers(transfers)), nextTransfer, e)
    {
      ghost var e, before := TransferFinish(id, now), Transfers(transfers);
      FindSame(before, transfers, |transfers|, id);
      var found := Find(transfers, id);
      if found.None? {
        NotFoundUntouched(TransferRules(), before, e, id);
        return true;
      }
      raised := false;
      FindSame(transfers, transfers, |transfers|, id);
      var stats := found.value;
      counters := counters.(transferredTokens := counters.transferredTokens + stats.numTokens);
      stats.Finish(now);
    }

    /** The request as a change of the whole monitor. */
    method OpenTransferIn(tokens: int, now: real) returns (id: nat)
      requires Valid()
      modifies this`counters, this`transfers, this`nextTransfer, this`issuedTransfers
      ensures Valid() && id == old(nextTransfer)
      ensures |issuedTransfers| == id + 1 && issuedTransfers == old(issuedTransfers) + [issuedTransfers[id]] && fresh(issuedTransfers[id])
      ensures var s, e := old(View()), TransferStart(tokens, now);
              View() == s.(counters := s.counters.Plus(Added(limits, e, Nobody)),
                           transfers := TableStep(TransferRules(), s.transfers, s.nextTransfer, e), nextTransfer := s.nextTransfer + 1)
    {
      ghost var before := View();
      id := OpenTransfer(tokens, now);
      assert Lookups(lookups) == before.lookups;
      assert Retrieves(retrieves) == before.retrieves;
      assert Stores(stores) == before.stores;
    }

    method OnTransferRequest(tokens: int, now: real) returns (id: nat)
      requires Valid()
      modifies this`counters, this`transfers, this`nextTransfer, this`issuedTransfers
      ensures Valid() && id == old(nextTransfer)
      ensures |issuedTransfers| == id + 1 && issuedTransfers == old(issuedTransfers) + [issuedTransfers[id]] && fresh(issuedTransfers[id])
      ensures View() == Step(old(View()), TransferStart(tokens, now))
    {
      TransferStartStep(View(), tokens, now);
      id := OpenTransferIn(tokens, now);
    }

    /** The finish as a change of the whole monitor. */
    method FinishTransferIn(id: nat, now: real) returns (raised: bool)
      requires Valid()
      modifies this`counters, Objects(transfers)
      ensures Valid() && raised == Find(old(View()).transfers, id).None?
      ensures var s, e := old(View()), TransferFinish(id, now);
              View() == s.(counters := s.counters.Plus(Added(limits, e, Named(None, None, Find(s.transfers, id)))),
                           transfers := TableStep(TransferRules(), s.transfers, s.nextTransfer, e))
    {
      ghost var before := View();
      raised := FinishTransfer(id, now);
      assert Lookups(lookups) == before.lookups;
      assert Retrieves(retrieves) == before.retrieves;
      assert Stores(stores) == before.stores;
    }

    method OnTransferFinished(id: nat, now: real) returns (raised: bool)
      requires Valid()
      modifies this`counters, Objects(transfers)
      ensures Valid() && raised == Raises(old(View()), TransferFinish(id, now))
      ensures View() == Step(old(View()), TransferFinish(id, now))
    {
      TransferFinishStep(View(), TransferFinish(id, now));
      raised := FinishTransferIn(id, now);
    }

    // ---- events that are only counted or recorded ----

    method Tally(added: Counters)
      requires Valid()
      modifies this`counters
      ensures Valid() && View() == old(View()).(counters := old(counters).Plus(added))
    {
      ghost var before := View();
      counters := counters.Plus(added);
      assert Lookups(lookups) == before.lookups;
      assert Retrieves(retrieves) == before.retrieves;
      assert Stores(stores) == before.stores;
      assert Transfers(transfers) == before.transfers;
    }

    method Record(get: seq<real>, put: seq<real>, sync: seq<real>, lifespan: seq<real>)
      requires Valid()
      modifies this`getTimes, this`putTimes, this`syncTimes, this`lifespans
      ensures Valid()
      ensures View() == old(View()).(getTimes := old(getTimes) + get, putTimes := old(putTimes) + put,
                                     syncTimes := old(syncTimes) + sync, lifespans := old(lifespans) + lifespan)
    {
      ghost var before := View();
      getTimes, putTimes, syncTimes, lifespans := getTimes + get, putTimes + put, syncTimes + sync, lifespans + lifespan;
      assert Lookups(lookups) == before.lookups;
      assert Retrieves(retrieves) == before.retrieves;
      assert Stores(stores) == before.stores;
      assert Transfers(transfers) == before.transfers;
    }

    method OnChunkReuse(seconds: real)
      requires Valid()
      modifies this`getTimes, this`putTimes, this`syncTimes, this`lifespans
      ensures Valid() && View() == Step(old(View()), ChunkReuse(seconds))
    {
      RecordStep(View(), ChunkReuse(seconds));
      Record([], [], [], [seconds / 60.0]);
    }

    method UpdateRemoteRead(bytes: int)
      requires Valid()
      modifies this`counters
      ensures Valid() && View() == Step(old(View()), RemoteRead(bytes))
    {
      CountStep(View(), RemoteRead(bytes));
      Tally(Zero.(remoteReads := 1, remoteReadBytes := bytes));
    }

    method UpdateRemoteWrite(bytes: int)
      requires Valid()
      modifies this`counters
      ensures Valid() && View() == Step(old(View()), RemoteWrite(bytes))
    {
      CountStep(View(), RemoteWrite(bytes));
      Tally(Zero.(remoteWrites := 1, remoteWriteBytes := bytes));
    }

    method UpdateRemoteTimeToGet(seconds: real)
      requires Valid()
      modifies this`getTimes, this`putTimes, this`syncTimes, this`lifespans
      ensures Valid() && View() == Step(old(View()), RemoteGetTime(seconds))
    {
      RecordStep(View(), RemoteGetTime(seconds));
      Record([seconds], [], [], []);
    }

    method UpdateRemoteTimeToPut(seconds: real)
      requires Valid()
      modifies this`getTimes, this`putTimes, this`syncTimes, this`lifespans
      ensures Valid() && View() == Step(old(View()), RemotePutTime(seconds))
    {
      RecordStep(View(), RemotePutTime(seconds));
      Record([], [seconds], [], []);
    }

    method UpdateRemoteTimeToGetSync(seconds: real)
      requires Valid()
      modifies this`getTimes, this`putTimes, this`syncTimes, this`lifespans
      ensures Valid() && View() == Step(old(View()), RemoteSyncGetTime(seconds))
    {
      RecordStep(View(), RemoteSyncGetTime(seconds));
      Record([], [], [seconds], []);
    }

    method SetGauges(g: Gauges)
      requires Valid()
      modifies this`gauges
      ensures Valid() && View() == old(View()).(gauges := g)
    {
      ghost var before := View();
      gauges := g;
      assert Lookups(lookups) == before.lookups;
      assert Retrieves(retrieves) == before.retrieves;
      assert Stores(stores) == before.stores;
      assert Transfers(transfers) == before.transfers;
    }

    method UpdatePingErrorCode(code: int)
      requires Valid()
      modifies this`counters, this`gauges
      ensures Valid() && View() == Step(old(View()), Ping(code))
    {
      PingStep(View(), Ping(code));
      SetGauges(gauges.(pingCode := code));
      Tally(if code != 0 then Zero.(pingErrors := 1) else Zero.(pingSuccesses := 1));
    }

    method UpdateLocalCacheUsage(bytes: int)
      requires Valid()
      modifies this`gauges
      ensures Valid() && View() == Step(old(View()), LocalCacheUsage(bytes))
    {
      GaugeStep(View(), LocalCacheUsage(bytes));
      SetGauges(gauges.(localCache := bytes));
    }

    method UpdateRemoteCacheUsage(bytes: int)
      requires Valid()
      modifies this`gauges
      ensures Valid() && View() == Step(old(View()), RemoteCacheUsage(bytes))
    {
      GaugeStep(View(), RemoteCacheUsage(bytes));
      SetGauges(gauges.(remoteCache := bytes));
    }

    method UpdateLocalStorageUsage(bytes: int)
      requires Valid()
      modifies this`gauges
      ensures Valid() && View() == Step(old(View()), LocalStorageUsage(bytes))
    {
      GaugeStep(View(), LocalStorageUsage(bytes));
      SetGauges(gauges.(localStorage := bytes));
    }

    method UpdateActiveObjects(count: int)
      requires Valid()
      modifies this`gauges
      ensures Valid() && View() == Step(old(View()), ActiveObjects(count))
    {
      GaugeStep(View(), ActiveObjects(count));
      SetGauges(gauges.(activeObjects := count));
    }

    method UpdatePinnedObjects(count: int)
      requires Valid()
      modifies this`gauges
      ensures Valid() && View() == Step(old(View()), PinnedObjects(count))
    {
      GaugeStep(View(), PinnedObjects(count));
      SetGauges(gauges.(pinnedObjects := gauges.pinnedObjects + count));
    }

    method UpdatePingLatency(seconds: real)
      requires Valid()
      modifies this`gauges
      ensures Valid() && View() == Step(old(View()), PingLatency(seconds))
    {
      GaugeStep(View(), PingLatency(seconds));
      SetGauges(gauges.(pingLatency := seconds));
    }

    method UpdateEvictions(keys: int)
      requires Valid()
      modifies this`counters
      ensures Valid() && View() == Step(old(View()), Evict(keys))
    {
      CountStep(View(), Evict(keys));
      Tally(Zero.(evictions := 1, evictedKeys := keys));
    }

    method UpdateEvictionFailures(count: int)
      requires Valid()
      modifies this`counters
      ensures Valid() && View() == Step(old(View()), EvictFailed(count))
    {
      CountStep(View(), EvictFailed(count));
      Tally(Zero.(evictFailures := count));
    }

    method UpdateForcedUnpins(count: int)
      requires Valid()
      modifies this`counters
      ensures Valid() && View() == Step(old(View()), ForcedUnpin(count))
    {
      CountStep(View(), ForcedUnpin(count));
      Tally(Zero.(forcedUnpins := count));
    }

    method UpdateVllmHitTokens(count: int)
      requires Valid()
      modifies this`counters
      ensures Valid() && View() == Step(old(View()), VllmHits(count))
    {
      CountStep(View(), VllmHits(count));
      Tally(Zero.(vllmHitTokens := count));
    }

    method UpdatePromptTokens(count: int)
      requires Valid()
      modifies this`counters
      ensures Valid() && View() == Step(old(View()), PromptTokens(count))
    {
      CountStep(View(), PromptTokens(count));
      Tally(Zero.(promptTokens := count));
    }

    // ---- snapshots ----

    /** The loop that keeps the rows of the unfinished requests. */
    method RebuildRetrieves()
      requires ValidRetrieves()
      modifies this`retrieves
      ensures ValidRetrieves() && Retrieves(retrieves) == Select(old(Retrieves(retrieves)), RetrieveDone, false)
    {
      var kept := [];
      for k := 0 to |retrieves|
        invariant kept == KeptRetrieves(retrieves, k)
      {
        if retrieves[k].stats.endTime == 0.0 {
          kept := kept + [retrieves[k]];
        }
      }
      KeptRetrievesView(retrieves, |retrieves|);
      KeptRetrievesGood(retrieves, |retrieves|, nextRetrieve);
      KeptRetrievesFrom(retrieves, |retrieves|, issuedRetrieves);
      retrieves := kept;
    }

    method ClearRetrieves()
      requires Valid()
      modifies this`retrieves
      ensures Valid() && View() == old(View()).(retrieves := Select(old(View()).retrieves, RetrieveDone, false))
    {
      ghost var before := View();
      RebuildRetrieves();
      assert Lookups(lookups) == before.lookups;
      assert Stores(stores) == before.stores;
      assert Transfers(transfers) == before.transfers;
    }

    /** The loop that keeps the rows of the unfinished requests. */
    method RebuildStores()
      requires ValidStores()
      modifies this`stores
      ensures ValidStores() && Stores(stores) == Select(old(Stores(stores)), StoreDone, false)
    {
      var kept := [];
      for k := 0 to |stores|
        invariant kept == KeptStores(stores, k)
      {
        if stores[k].stats.endTime == 0.0 {
          kept := kept + [stores[k]];
        }
      }
      KeptStoresView(stores, |stores|);
      KeptStoresGood(stores, |stores|, nextStore);
      KeptStoresFrom(stores, |stores|, issuedStores);
      stores := kept;
    }

    method ClearStores()
      requires Valid()
      modifies this`stores
      ensures Valid() && View() == old(View()).(stores := Select(old(View()).stores, StoreDone, false))
    {
      ghost var before := View();
      RebuildStores();
      assert Lookups(lookups) == before.lookups;
      assert Retrieves(retrieves) == before.retrieves;
      assert Transfers(transfers) == before.transfers;
    }

    /** The loop that keeps the rows of the unfinished requests. */
    method RebuildTransfers()
      requires ValidTransfers()
      modifies this`transfers
      ensures ValidTransfers() && Transfers(transfers) == Select(old(Transfers(transfers)), TransferDone, false)
    {
      var kept := [];
      for k := 0 to |transfers|
        invariant kept == KeptTransfers(transfers, k)
      {
        if transfers[k].stats.endTime == 0.0 {
          kept := kept + [transfers[k]];
        }
      }
      KeptTransfersView(transfers, |transfers|);
      KeptTransfersGood(transfers, |transfers|, nextTransfer);
      KeptTransfersFrom(transfers, |transfers|, issuedTransfers);
      transfers := kept;
    }

    method ClearTransfers()
      requires Valid()
      modifies this`transfers
      ensures Valid() && View() == old(View()).(transfers := Select(old(View()).transfers, TransferDone, false))
    {
      ghost var before := View();
      RebuildTransfers();
      assert Lookups(lookups) == before.lookups;
      assert Retrieves(retrieves) == before.retrieves;
      assert Stores(stores) == before.stores;
    }

    /** The loop that keeps the rows of the unfinished requests. */
    method RebuildLookups()
      requires ValidLookups()
      modifies this`lookups
      ensures ValidLookups() && Lookups(lookups) == Select(old(Lookups(lookups)), LookupDone, false)
    {
      var kept := [];
      for k := 0 to |lookups|
        invariant kept == KeptLookups(lookups, k)
      {
        if !lookups[k].stats.isFinished {
          kept := kept + [lookups[k]];
        }
      }
      KeptLookupsView(lookups, |lookups|);
      KeptLookupsGood(lookups, |lookups|, nextLookup);
      KeptLookupsFrom(lookups, |lookups|, issuedLookups);
      lookups := kept;
    }

    method ClearLookups()
      requires Valid()
      modifies this`lookups
      ensures Valid() && View() == old(View()).(lookups := Select(old(View()).lookups, LookupDone, false))
    {
      ghost var before := View();
      RebuildLookups();
      assert Retrieves(retrieves) == before.retrieves;
      assert Stores(stores) == before.stores;
      assert Transfers(transfers) == before.transfers;
    }

    method ResetCounters()
      requires Valid()
      modifies this`counters
      ensures Valid() && View() == old(View()).(counters := Zero)
    {
      ghost var before := View();
      counters := Counters(0, 0, 0, 0, 0, 0, 0, 0, 0, 0, 0, 0, 0, 0, 0, 0, 0, 0, 0, 0, 0, 0, 0, 0, 0);
      assert Lookups(lookups) == before.lookups;
      assert Retrieves(retrieves) == before.retrieves;
      assert Stores(stores) == before.stores;
      assert Transfers(transfers) == before.transfers;
    }

    method ResetTimes()
      requires Valid()
      modifies this`getTimes, this`putTimes, this`syncTimes, this`lifespans
      ensures Valid() && View() == old(View()).(getTimes := [], putTimes := [], syncTimes := [], lifespans := [])
    {
      ghost var before := View();
      getTimes, putTimes, syncTimes, lifespans := [], [], [], [];
      assert Lookups(lookups) == before.lookups;
      assert Retrieves(retrieves) == before.retrieves;
      assert Stores(stores) == before.stores;
      assert Transfers(transfers) == before.transfers;
    }

    method Clear()
      requires Valid()
      modifies this`counters, this`getTimes, this`putTimes, this`syncTimes, this`lifespans, this`gauges,
               this`lookups, this`retrieves, this`stores, this`transfers
      ensures Valid() && View() == Step(old(View()), Snapshot)
    {
      SnapshotStep(View());
      ResetCounters();
      ResetTimes();
      SetGauges(gauges.(pingLatency := 0.0, pingCode := 0));
      ClearRetrieves();
      ClearStores();
      ClearTransfers();
      ClearLookups();
    }

    /** Report the interval and start a new one. */
    method GetStatsAndClear() returns (report: Report)
      requires Valid()
      modifies this`counters, this`getTimes, this`putTimes, this`syncTimes, this`lifespans, this`gauges,
               this`lookups, this`retrieves, this`stores, this`transfers
      ensures Valid() && report == ReportOf(old(View())) && View() == Step(old(View()), Snapshot)
    {
      report := ReportOf(View());
      Clear();
    }
  }
}
