/**
 Clients of the statistics monitor. A client keeps the objects it was handed and may finish or
 profile any of them at any time, with other requests open and after any number of snapshots:
 every sequence of events of the model can be played on the object, with the model's results.
 */
module StatsClient {
  import opened Text
  import opened Requests
  import opened StatsModel
  import opened StatsRuns
  import opened StatsRequests
  import opened StatsSteps
  import opened StatsMonitor

  function Elements<T>(s: seq<T>): set<T> {
    set x | x in s
  }

  lemma {:induction false} ElementsAppend<T>(s: seq<T>, x: T)
    ensures Elements(s + [x]) == Elements(s) + {x}
  {
  }

  /** All objects that the monitor has made. */
  ghost function Footprint(m: Monitor): set<object>
    reads m`issuedLookups, m`issuedRetrieves, m`issuedStores, m`issuedTransfers
  {
    var made: set<object> := Elements(m.issuedLookups);
    made + Elements(m.issuedRetrieves) + Elements(m.issuedStores) + Elements(m.issuedTransfers)
  }

  // ---- lookups ----

  method StartLookup(m: Monitor, held: seq<LookupStats>, e: Event) returns (held': seq<LookupStats>)
    requires m.Valid() && held == m.issuedLookups && e.LookupStart?
    modifies m`counters, m`lookups, m`nextLookup, m`issuedLookups
    ensures m.Valid() && held' == m.issuedLookups
    ensures forall x | x in Footprint(m) :: x in old(Footprint(m)) || fresh(x)
    ensures m.View() == Step(old(m.View()), e)
  {
    ghost var before := Footprint(m);
    var stats := m.OnLookupRequest(e.tokens, e.now);
    held' := held + [stats];
    ElementsAppend(held, stats);
    assert Footprint(m) == before + {stats};
  }

  /** The object with the given id; if the monitor has made none, one that it does not know. */
  method HeldLookup(m: Monitor, held: seq<LookupStats>, id: nat) returns (stats: LookupStats)
    requires m.ValidLookups() && held == m.issuedLookups
    ensures stats.requestId == id && m.KnowsLookup(stats) && (stats in held || fresh(stats)) && m.View() == old(m.View())
  {
    ghost var before := m.View();
    if id < |held| {
      stats := held[id];
    } else {
      stats := new LookupStats(id, 0, 0.0);
    }
    assert Lookups(m.lookups) == before.lookups;
    assert Retrieves(m.retrieves) == before.retrieves;
    assert Stores(m.stores) == before.stores;
    assert Transfers(m.transfers) == before.transfers;
  }

  method EndLookup(m: Monitor, held: seq<LookupStats>, e: Event) returns (raised: bool)
    requires m.Valid() && held == m.issuedLookups && e.LookupFinish?
    modifies m`counters, Elements(held)
    ensures m.Valid() && raised == Raises(old(m.View()), e)
    ensures m.View() == Step(old(m.View()), e)
  {
    var stats := HeldLookup(m, held, e.id);
    raised := m.OnLookupFinished(stats, e.hits, e.now);
  }

  // ---- retrievals ----

  method StartRetrieve(m: Monitor, held: seq<RetrieveStats>, e: Event) returns (held': seq<RetrieveStats>)
    requires m.Valid() && held == m.issuedRetrieves && e.RetrieveStart?
    modifies m`counters, m`retrieves, m`nextRetrieve, m`issuedRetrieves
    ensures m.Valid() && held' == m.issuedRetrieves
    ensures forall x | x in Footprint(m) :: x in old(Footprint(m)) || fresh(x)
    ensures m.View() == Step(old(m.View()), e)
  {
    ghost var before := Footprint(m);
    var stats := m.OnRetrieveRequest(e.tokens, e.now);
    held' := held + [stats];
    ElementsAppend(held, stats);
    assert Footprint(m) == before + {stats};
  }

  /** The object with the given id; if the monitor has made none, one that it does not know. */
  method HeldRetrieve(m: Monitor, held: seq<RetrieveStats>, id: nat) returns (stats: RetrieveStats)
    requires m.ValidRetrieves() && held == m.issuedRetrieves
    ensures stats.requestId == id && m.KnowsRetrieve(stats) && (stats in held || fresh(stats)) && m.View() == old(m.View())
  {
    ghost var before := m.View();
    if id < |held| {
      stats := held[id];
    } else {
      stats := new RetrieveStats(id, 0, 0.0);
    }
    assert Lookups(m.lookups) == before.lookups;
    assert Retrieves(m.retrieves) == before.retrieves;
    assert Stores(m.stores) == before.stores;
    assert Transfers(m.transfers) == before.transfers;
  }

  method EndRetrieve(m: Monitor, held: seq<RetrieveStats>, e: Event) returns (raised: bool)
    requires m.Valid() && held == m.issuedRetrieves && e.RetrieveFinish?
    modifies m`counters, m`lastWarning, m`skippedWarnings, Elements(held)
    ensures m.Valid() && raised == Raises(old(m.View()), e)
    ensures m.View() == Step(old(m.View()), e)
  {
    var stats := HeldRetrieve(m, held, e.id);
    var warnings;
    raised, warnings := m.OnRetrieveFinished(stats, e.hits, e.now);
  }

  method ProfileRetrieve(m: Monitor, held: seq<RetrieveStats>, e: Event)
    requires m.Valid() && held == m.issuedRetrieves && e.RetrieveProfile?
    modifies Elements(held)
    ensures m.Valid() && m.View() == Step(old(m.View()), e)
  {
    var stats := HeldRetrieve(m, held, e.id);
    m.ProfileRetrieve(stats, e.process, e.broadcast, e.toGpu, e.blocking, e.connector);
  }

  // ---- stores ----

  method StartStore(m: Monitor, held: seq<StoreStats>, e: Event) returns (held': seq<StoreStats>)
    requires m.Valid() && held == m.issuedStores && e.StoreStart?
    modifies m`counters, m`stores, m`nextStore, m`issuedStores
    ensures m.Valid() && held' == m.issuedStores
    ensures forall x | x in Footprint(m) :: x in old(Footprint(m)) || fresh(x)
    ensures m.View() == Step(old(m.View()), e)
  {
    ghost var before := Footprint(m);
    var stats := m.OnStoreRequest(e.tokens, e.now);
    held' := held + [stats];
    ElementsAppend(held, stats);
    assert Footprint(m) == before + {stats};
  }

  /** The object with the given id; if the monitor has made none, one that it does not know. */
  method HeldStore(m: Monitor, held: seq<StoreStats>, id: nat) returns (stats: StoreStats)
    requires m.ValidStores() && held == m.issuedStores
    ensures stats.requestId == id && m.KnowsStore(stats) && (stats in held || fresh(stats)) && m.View() == old(m.View())
  {
    ghost var before := m.View();
    if id < |held| {
      stats := held[id];
    } else {
      stats := new StoreStats(id, 0, 0.0);
    }
    assert Lookups(m.lookups) == before.lookups;
    assert Retrieves(m.retrieves) == before.retrieves;
    assert Stores(m.stores) == before.stores;
    assert Transfers(m.transfers) == before.transfers;
  }

  method EndStore(m: Monitor, held: seq<StoreStats>, e: Event) returns (raised: bool)
    requires m.Valid() && held == m.issuedStores && e.StoreFinish?
    modifies Elements(held)
    ensures m.Valid() && raised == Raises(old(m.View()), e)
    ensures m.View() == Step(old(m.View()), e)
  {
    var stats := HeldStore(m, held, e.id);
    raised := m.OnStoreFinished(stats, e.stored, e.now);
  }

  method ProfileStore(m: Monitor, held: seq<StoreStats>, e: Event)
    requires m.Valid() && held == m.issuedStores && e.StoreProfile?
    modifies Elements(held)
    ensures m.Valid() && m.View() == Step(old(m.View()), e)
  {
    var stats := HeldStore(m, held, e.id);
    m.ProfileStore(stats, e.process, e.fromGpu, e.put);
  }

  // ---- transfers, and events without a request ----

  lemma {:induction false} TransfersHeld(m: Monitor)
    requires m.ValidTransfers()
    ensures Objects(m.transfers) <= Elements(m.issuedTransfers)
  {
  }

  method StartTransfer(m: Monitor, e: Event)
    requires m.Valid() && e.TransferStart?
    modifies m`counters, m`transfers, m`nextTransfer, m`issuedTransfers
    ensures m.Valid() && forall x | x in Footprint(m) :: x in old(Footprint(m)) || fresh(x)
    ensures m.View() == Step(old(m.View()), e)
  {
    ghost var before, all := m.issuedTransfers, Footprint(m);
    var id := m.OnTransferRequest(e.tokens, e.now);
    ElementsAppend(before, m.issuedTransfers[id]);
    assert Footprint(m) == all + {m.issuedTransfers[id]};
  }

  method EndTransfer(m: Monitor, e: Event) returns (raised: bool)
    requires m.Valid() && e.TransferFinish?
    modifies m`counters, Elements(m.issuedTransfers)
    ensures m.Valid() && raised == Raises(old(m.View()), e)
    ensures m.View() == Step(old(m.View()), e)
  {
    TransfersHeld(m);
    raised := m.OnTransferFinished(e.id, e.now);
  }

  predicate Counted(e: Event) {
    || e.RemoteRead? || e.RemoteWrite? || e.Ping? || e.Evict? || e.EvictFailed? || e.ForcedUnpin? || e.VllmHits?
    || e.PromptTokens?
  }

  /** An event that is counted. */
  method Count(m: Monitor, e: Event)
    requires m.Valid() && Counted(e)
    modifies m`counters, m`gauges
    ensures m.Valid() && m.View() == Step(old(m.View()), e)
  {
    match e
    case RemoteRead(n) => m.UpdateRemoteRead(n);
    case RemoteWrite(n) => m.UpdateRemoteWrite(n);
    case Ping(code) => m.UpdatePingErrorCode(code);
    case Evict(n) => m.UpdateEvictions(n);
    case EvictFailed(n) => m.UpdateEvictionFailures(n);
    case ForcedUnpin(n) => m.UpdateForcedUnpins(n);
    case VllmHits(n) => m.UpdateVllmHitTokens(n);
    case PromptTokens(n) => m.UpdatePromptTokens(n);
  }

  /** An event whose time is recorded. */
  method Time(m: Monitor, e: Event)
    requires m.Valid() && Timed(e)
    modifies m`getTimes, m`putTimes, m`syncTimes, m`lifespans
    ensures m.Valid() && m.View() == Step(old(m.View()), e)
  {
    match e
    case ChunkReuse(x) => m.OnChunkReuse(x);
    case RemoteGetTime(x) => m.UpdateRemoteTimeToGet(x);
    case RemotePutTime(x) => m.UpdateRemoteTimeToPut(x);
    case RemoteSyncGetTime(x) => m.UpdateRemoteTimeToGetSync(x);
  }

  /** An event that sets a gauge. */
  method Gauge(m: Monitor, e: Event)
    requires m.Valid() && Gauged(e)
    modifies m`gauges
    ensures m.Valid() && m.View() == Step(old(m.View()), e)
  {
    match e
    case LocalCacheUsage(n) => m.UpdateLocalCacheUsage(n);
    case RemoteCacheUsage(n) => m.UpdateRemoteCacheUsage(n);
    case LocalStorageUsage(n) => m.UpdateLocalStorageUsage(n);
    case ActiveObjects(n) => m.UpdateActiveObjects(n);
    case PinnedObjects(n) => m.UpdatePinnedObjects(n);
    case PingLatency(x) => m.UpdatePingLatency(x);
  }

  // ---- any event ----

  /** The objects that a client has been handed, by id. */
  datatype Held = Held(lookups: seq<LookupStats>, retrieves: seq<RetrieveStats>, stores: seq<StoreStats>)

  /** The client misses some object, or has another. */
  ghost predicate Lacks(m: Monitor, h: Held)
    reads m`issuedLookups, m`issuedRetrieves, m`issuedStores
  {
    h.lookups != m.issuedLookups || h.retrieves != m.issuedRetrieves || h.stores != m.issuedStores
  }

  ghost predicate Has(m: Monitor, h: Held)
    reads m`issuedLookups, m`issuedRetrieves, m`issuedStores
  {
    !Lacks(m, h)
  }

  method OpenLookup(m: Monitor, h: Held, e: Event) returns (h': Held)
    requires m.Valid() && Has(m, h) && e.LookupStart?
    modifies m, Footprint(m)
    ensures m.Valid() && Has(m, h')
    ensures forall x | x in Footprint(m) :: x in old(Footprint(m)) || fresh(x)
    ensures m.View() == Step(old(m.View()), e)
  {
    var held := StartLookup(m, h.lookups, e);
    h' := h.(lookups := held);
  }

  method TouchLookup(m: Monitor, h: Held, e: Event) returns (raised: bool)
    requires m.Valid() && Has(m, h) && (e.LookupFinish?)
    modifies m, Footprint(m)
    ensures m.Valid() && Has(m, h)
    ensures forall x | x in Footprint(m) :: x in old(Footprint(m)) || fresh(x)
    ensures m.View() == Step(old(m.View()), e) && raised == Raises(old(m.View()), e)
  {
    raised := EndLookup(m, h.lookups, e);
  }

  method PerformLookup(m: Monitor, h: Held, e: Event) returns (h': Held, raised: bool)
    requires m.Valid() && Has(m, h) && (e.LookupStart? || e.LookupFinish?)
    modifies m, Footprint(m)
    ensures m.Valid() && Has(m, h')
    ensures forall x | x in Footprint(m) :: x in old(Footprint(m)) || fresh(x)
    ensures m.View() == Step(old(m.View()), e) && raised == Raises(old(m.View()), e)
  {
    if e.LookupStart? {
      raised := false;
      h' := OpenLookup(m, h, e);
    } else {
      h' := h;
      raised := TouchLookup(m, h, e);
    }
  }

  method ChangeRetrieve(m: Monitor, held: seq<RetrieveStats>, e: Event) returns (raised: bool)
    requires m.Valid() && held == m.issuedRetrieves && (e.RetrieveFinish? || e.RetrieveProfile?)
    modifies m`counters, m`lastWarning, m`skippedWarnings, Elements(held)
    ensures m.Valid() && m.View() == Step(old(m.View()), e) && raised == Raises(old(m.View()), e)
  {
    if e.RetrieveFinish? {
      raised := EndRetrieve(m, held, e);
    } else {
      raised := false;
      ProfileRetrieve(m, held, e);
    }
  }

  method OpenRetrieve(m: Monitor, h: Held, e: Event) returns (h': Held)
    requires m.Valid() && Has(m, h) && e.RetrieveStart?
    modifies m, Footprint(m)
    ensures m.Valid() && Has(m, h')
    ensures forall x | x in Footprint(m) :: x in old(Footprint(m)) || fresh(x)
    ensures m.View() == Step(old(m.View()), e)
  {
    var held := StartRetrieve(m, h.retrieves, e);
    h' := h.(retrieves := held);
  }

  method TouchRetrieve(m: Monitor, h: Held, e: Event) returns (raised: bool)
    requires m.Valid() && Has(m, h) && (e.RetrieveFinish? || e.RetrieveProfile?)
    modifies m, Footprint(m)
    ensures m.Valid() && Has(m, h)
    ensures forall x | x in Footprint(m) :: x in old(Footprint(m)) || fresh(x)
    ensures m.View() == Step(old(m.View()), e) && raised == Raises(old(m.View()), e)
  {
    raised := ChangeRetrieve(m, h.retrieves, e);
  }

  method PerformRetrieve(m: Monitor, h: Held, e: Event) returns (h': Held, raised: bool)
    requires m.Valid() && Has(m, h) && (e.RetrieveStart? || e.RetrieveFinish? || e.RetrieveProfile?)
    modifies m, Footprint(m)
    ensures m.Valid() && Has(m, h')
    ensures forall x | x in Footprint(m) :: x in old(Footprint(m)) || fresh(x)
    ensures m.View() == Step(old(m.View()), e) && raised == Raises(old(m.View()), e)
  {
    if e.RetrieveStart? {
      raised := false;
      h' := OpenRetrieve(m, h, e);
    } else {
      h' := h;
      raised := TouchRetrieve(m, h, e);
    }
  }

  method ChangeStore(m: Monitor, held: seq<StoreStats>, e: Event) returns (raised: bool)
    requires m.Valid() && held == m.issuedStores && (e.StoreFinish? || e.StoreProfile?)
    modifies Elements(held)
    ensures m.Valid() && m.View() == Step(old(m.View()), e) && raised == Raises(old(m.View()), e)
  {
    if e.StoreFinish? {
      raised := EndStore(m, held, e);
    } else {
      raised := false;
      ProfileStore(m, held, e);
    }
  }

  method OpenStore(m: Monitor, h: Held, e: Event) returns (h': Held)
    requires m.Valid() && Has(m, h) && e.StoreStart?
    modifies m, Footprint(m)
    ensures m.Valid() && Has(m, h')
    ensures forall x | x in Footprint(m) :: x in old(Footprint(m)) || fresh(x)
    ensures m.View() == Step(old(m.View()), e)
  {
    var held := StartStore(m, h.stores, e);
    h' := h.(stores := held);
  }

  method TouchStore(m: Monitor, h: Held, e: Event) returns (raised: bool)
    requires m.Valid() && Has(m, h) && (e.StoreFinish? || e.StoreProfile?)
    modifies m, Footprint(m)
    ensures m.Valid() && Has(m, h)
    ensures forall x | x in Footprint(m) :: x in old(Footprint(m)) || fresh(x)
    ensures m.View() == Step(old(m.View()), e) && raised == Raises(old(m.View()), e)
  {
    raised := ChangeStore(m, h.stores, e);
  }

  method PerformStore(m: Monitor, h: Held, e: Event) returns (h': Held, raised: bool)
    requires m.Valid() && Has(m, h) && (e.StoreStart? || e.StoreFinish? || e.StoreProfile?)
    modifies m, Footprint(m)
    ensures m.Valid() && Has(m, h')
    ensures forall x | x in Footprint(m) :: x in old(Footprint(m)) || fresh(x)
    ensures m.View() == Step(old(m.View()), e) && raised == Raises(old(m.View()), e)
  {
    if e.StoreStart? {
      raised := false;
      h' := OpenStore(m, h, e);
    } else {
      h' := h;
      raised := TouchStore(m, h, e);
    }
  }

  method OpenTransfer(m: Monitor, h: Held, e: Event)
    requires m.Valid() && Has(m, h) && e.TransferStart?
    modifies m, Footprint(m)
    ensures m.Valid() && Has(m, h)
    ensures forall x | x in Footprint(m) :: x in old(Footprint(m)) || fresh(x)
    ensures m.View() == Step(old(m.View()), e)
  {
    StartTransfer(m, e);
  }

  method TouchTransfer(m: Monitor, h: Held, e: Event) returns (raised: bool)
    requires m.Valid() && Has(m, h) && e.TransferFinish?
    modifies m, Footprint(m)
    ensures m.Valid() && Has(m, h)
    ensures forall x | x in Footprint(m) :: x in old(Footprint(m)) || fresh(x)
    ensures m.View() == Step(old(m.View()), e) && raised == Raises(old(m.View()), e)
  {
    raised := EndTransfer(m, e);
  }

  method PerformTransfer(m: Monitor, h: Held, e: Event) returns (raised: bool)
    requires m.Valid() && Has(m, h) && (e.TransferStart? || e.TransferFinish?)
    modifies m, Footprint(m)
    ensures m.Valid() && Has(m, h)
    ensures forall x | x in Footprint(m) :: x in old(Footprint(m)) || fresh(x)
    ensures m.View() == Step(old(m.View()), e) && raised == Raises(old(m.View()), e)
  {
    if e.TransferStart? {
      OpenTransfer(m, h, e);
      raised := false;
    } else {
      raised := TouchTransfer(m, h, e);
    }
  }

  method PerformPlain(m: Monitor, e: Event)
    requires m.Valid() && (Counted(e) || Timed(e) || Gauged(e))
    modifies m`counters, m`gauges, m`getTimes, m`putTimes, m`syncTimes, m`lifespans
    ensures m.Valid() && m.View() == Step(old(m.View()), e)
  {
    if Counted(e) {
      Count(m, e);
    } else if Timed(e) {
      Time(m, e);
    } else {
      Gauge(m, e);
    }
  }

  predicate OfRequest(e: Event) {
    (OfLookup(e) || OfRetrieve(e) || OfStore(e)) && !e.Snapshot?
  }

  method PerformRetrieveOrStore(m: Monitor, h: Held, e: Event) returns (h': Held, raised: bool)
    requires m.Valid() && Has(m, h) && OfRequest(e) && !OfLookup(e)
    modifies m, Footprint(m)
    ensures m.Valid() && Has(m, h')
    ensures forall x | x in Footprint(m) :: x in old(Footprint(m)) || fresh(x)
    ensures m.View() == Step(old(m.View()), e) && raised == Raises(old(m.View()), e)
  {
    if OfRetrieve(e) {
      h', raised := PerformRetrieve(m, h, e);
    } else {
      h', raised := PerformStore(m, h, e);
    }
  }

  method PerformRequest(m: Monitor, h: Held, e: Event) returns (h': Held, raised: bool)
    requires m.Valid() && Has(m, h) && OfRequest(e)
    modifies m, Footprint(m)
    ensures m.Valid() && Has(m, h')
    ensures forall x | x in Footprint(m) :: x in old(Footprint(m)) || fresh(x)
    ensures m.View() == Step(old(m.View()), e) && raised == Raises(old(m.View()), e)
  {
    if OfLookup(e) {
      h', raised := PerformLookup(m, h, e);
    } else {
      h', raised := PerformRetrieveOrStore(m, h, e);
    }
  }

  method PerformWithout(m: Monitor, h: Held, e: Event)
    requires m.Valid() && Has(m, h) && (Counted(e) || Timed(e) || Gauged(e))
    modifies m, Footprint(m)
    ensures m.Valid() && Has(m, h)
    ensures forall x | x in Footprint(m) :: x in old(Footprint(m)) || fresh(x)
    ensures m.View() == Step(old(m.View()), e)
  {
    PerformPlain(m, e);
  }

  method PerformSnapshot(m: Monitor, h: Held) returns (report: Report)
    requires m.Valid() && Has(m, h)
    modifies m, Footprint(m)
    ensures m.Valid() && Has(m, h)
    ensures forall x | x in Footprint(m) :: x in old(Footprint(m)) || fresh(x)
    ensures m.View() == Step(old(m.View()), Snapshot) && report == ReportOf(old(m.View()))
  {
    report := m.GetStatsAndClear();
  }

  /** Neither a snapshot nor an event without a request raises. */
  method PerformRest(m: Monitor, h: Held, e: Event) returns (report: Option<Report>)
    requires m.Valid() && Has(m, h) && (e.Snapshot? || Counted(e) || Timed(e) || Gauged(e))
    modifies m, Footprint(m)
    ensures m.Valid() && Has(m, h)
    ensures forall x | x in Footprint(m) :: x in old(Footprint(m)) || fresh(x)
    ensures m.View() == Step(old(m.View()), e)
    ensures report == if e.Snapshot? then Some(ReportOf(old(m.View()))) else None
  {
    if e.Snapshot? {
      var made := PerformSnapshot(m, h);
      report := Some(made);
    } else {
      report := None;
      PerformWithout(m, h, e);
    }
  }

  /** The other events hand out no object. */
  method PerformOther(m: Monitor, h: Held, e: Event) returns (raised: bool, report: Option<Report>)
    requires m.Valid() && Has(m, h) && !OfRequest(e)
    modifies m, Footprint(m)
    ensures m.Valid() && Has(m, h)
    ensures forall x | x in Footprint(m) :: x in old(Footprint(m)) || fresh(x)
    ensures m.View() == Step(old(m.View()), e) && raised == Raises(old(m.View()), e)
    ensures report == if e.Snapshot? then Some(ReportOf(old(m.View()))) else None
  {
    if OfTransfer(e) && !e.Snapshot? {
      report := None;
      raised := PerformTransfer(m, h, e);
    } else {
      raised := false;
      report := PerformRest(m, h, e);
    }
  }

  /** Any event at all is one call, with the model's step, its raising and its report. */
  method Perform(m: Monitor, h: Held, e: Event) returns (h': Held, raised: bool, report: Option<Report>)
    requires m.Valid() && Has(m, h)
    modifies m, Footprint(m)
    ensures m.Valid() && Has(m, h')
    ensures forall x | x in Footprint(m) :: x in old(Footprint(m)) || fresh(x)
    ensures m.View() == Step(old(m.View()), e) && raised == Raises(old(m.View()), e)
    ensures report == if e.Snapshot? then Some(ReportOf(old(m.View()))) else None
  {
    if OfRequest(e) {
      report := None;
      h', raised := PerformRequest(m, h, e);
    } else {
      h' := h;
      raised, report := PerformOther(m, h, e);
    }
  }

  // ---- any run ----

  /** Which events of a run raise. */
  function RaisesIn(limits: Thresholds, es: seq<Event>): nat -> bool {
    (i: nat) => i < |es| && Raises(StateAt(limits, es, i), es[i])
  }

  predicate Agrees(raised: seq<bool>, raises: nat -> bool, n: nat) {
    |raised| == n && forall i: nat | i < n :: raised[i] == raises(i)
  }

  lemma {:induction false} AgreesNext(raised: seq<bool>, r: bool, raises: nat -> bool, n: nat)
    requires Agrees(raised, raises, n) && r == raises(n)
    ensures Agrees(raised + [r], raises, n + 1)
  {
  }

  /** Some result of the first `n` events is not the model's. */
  ghost predicate Differs(s: State, raised: seq<bool>, reports: seq<Report>, limits: Thresholds, es: seq<Event>, n: nat)
    requires n <= |es|
  {
    s != StateAt(limits, es, n) || !Agrees(raised, RaisesIn(limits, es), n) || reports != ReportsAt(Made(limits, es), es, n)
  }

  lemma {:induction false} NoneYet(limits: Thresholds, es: seq<Event>)
    ensures !Differs(Initial(limits), [], [], limits, es, 0)
  {
  }

  lemma {:induction false} ReportsNext(reports: seq<Report>, report: Option<Report>, made: nat -> Report, es: seq<Event>, n: nat)
    requires n < |es| && reports == ReportsAt(made, es, n) && report == if es[n].Snapshot? then Some(made(n)) else None
    ensures (if report.Some? then reports + [report.value] else reports) == ReportsAt(made, es, n + 1)
  {
    assert reports + [] == reports;
  }

  lemma {:induction false} OneMore(
    s: State, s': State, raised: seq<bool>, r: bool, reports: seq<Report>, report: Option<Report>, limits: Thresholds, es: seq<Event>, n: nat)
    requires n < |es| && !Differs(s, raised, reports, limits, es, n)
    requires s' == Step(s, es[n]) && r == Raises(s, es[n])
    requires report == if es[n].Snapshot? then Some(ReportOf(s)) else None
    ensures !Differs(s', raised + [r], if report.Some? then reports + [report.value] else reports, limits, es, n + 1)
  {
    StateNext(limits, es, n);
    MadeAt(limits, es, n);
    AgreesNext(raised, r, RaisesIn(limits, es), n);
    ReportsNext(reports, report, Made(limits, es), es, n);
  }

  lemma {:induction false} MadeAt(limits: Thresholds, es: seq<Event>, n: nat)
    requires n <= |es|
    ensures Made(limits, es)(n) == ReportOf(StateAt(limits, es, n))
  {
  }

  /** The rest of a run of which the first `n` events have been played. */
  method PlayFrom(m: Monitor, h: Held, limits: Thresholds, es: seq<Event>, n: nat, raised: seq<bool>, reports: seq<Report>)
    returns (raised': seq<bool>, reports': seq<Report>)
    requires m.Valid() && Has(m, h) && n <= |es| && !Differs(m.View(), raised, reports, limits, es, n)
    modifies m, Footprint(m)
    ensures m.Valid() && !Differs(m.View(), raised', reports', limits, es, |es|)
    decreases |es| - n
  {
    if n == |es| {
      return raised, reports;
    }
    ghost var before := m.View();
    var h', r, report := Perform(m, h, es[n]);
    OneMore(before, m.View(), raised, r, reports, report, limits, es, n);
    raised', reports' := PlayFrom(m, h', limits, es, n + 1, raised + [r], if report.Some? then reports + [report.value] else reports);
  }

  /**
   Every sequence of events, played on a monitor by a client with the objects it was handed, ends
   in the model's state, raises where the model does, and makes the model's reports.
   */
  method Play(limits: Thresholds, es: seq<Event>) returns (m: Monitor, raised: seq<bool>, reports: seq<Report>)
    ensures fresh(m) && m.Valid() && m.View() == StateAt(limits, es, |es|)
    ensures Agrees(raised, RaisesIn(limits, es), |es|) && reports == ReportsAt(Made(limits, es), es, |es|)
  {
    m := new Monitor(limits);
    NoneYet(limits, es);
    raised, reports := PlayFrom(m, Held([], [], []), limits, es, 0, [], []);
  }

  /** Two lookups, a snapshot while both are open, and their finishes. */
  function Interleaved(tokens: int, hits: int, now: real): (es: seq<Event>)
    ensures |es| == 5
  {
    [LookupStart(tokens, now), LookupStart(tokens, now), Snapshot, LookupFinish(0, hits, now), LookupFinish(1, hits, now)]
  }

  lemma {:induction false} BothAccepted(limits: Thresholds, tokens: int, hits: int, now: real, es: seq<Event>)
    requires es == Interleaved(tokens, hits, now)
    ensures !Raises(StateAt(limits, es, 3), es[3]) && !Raises(StateAt(limits, es, 4), es[4])
  {
    var r := LookupRules();
    assert Issued(r, es, 0) == 0;
    assert Issued(r, es, 1) == 1;
    assert Issued(r, es, 2) == 2;
    assert Issued(r, es, 3) == 2;
    assert Issued(r, es, 4) == 2;
    FirstFinishAccepted(limits, es, 3);
    FirstFinishAccepted(limits, es, 4);
  }

  lemma {:induction false} NoFinishRaises(s: State, e: Event)
    requires e.LookupStart? || e.Snapshot?
    ensures !Raises(s, e)
  {
  }

  lemma {:induction false} NothingRaises(limits: Thresholds, tokens: int, hits: int, now: real, es: seq<Event>, i: nat)
    requires es == Interleaved(tokens, hits, now) && i < 5
    ensures !RaisesIn(limits, es)(i)
  {
    if i < 3 {
      NoFinishRaises(StateAt(limits, es, i), es[i]);
    } else {
      BothAccepted(limits, tokens, hits, now, es);
    }
  }

  predicate Quiet(raises: nat -> bool, n: nat) {
    forall i: nat | i < n :: !raises(i)
  }

  lemma {:induction false} AllQuiet(limits: Thresholds, tokens: int, hits: int, now: real)
    ensures Quiet(RaisesIn(limits, Interleaved(tokens, hits, now)), 5)
  {
    var es := Interleaved(tokens, hits, now);
    forall i: nat | i < 5
      ensures !RaisesIn(limits, es)(i)
    {
      NothingRaises(limits, tokens, hits, now, es, i);
    }
  }

  lemma {:induction false} AllFalse(raised: seq<bool>, raises: nat -> bool)
    requires Agrees(raised, raises, 5) && Quiet(raises, 5)
    ensures raised == [false, false, false, false, false]
  {
  }

  /** Two lookups at once, with a snapshot before they finish: nothing raises. */
  method TwoAtOnce(limits: Thresholds, tokens: int, hits: int, now: real) returns (m: Monitor, raised: seq<bool>)
    ensures raised == [false, false, false, false, false]
  {
    var es, reports := Interleaved(tokens, hits, now), [];
    AllQuiet(limits, tokens, hits, now);
    m, raised, reports := Play(limits, es);
    AllFalse(raised, RaisesIn(limits, es));
  }
}
