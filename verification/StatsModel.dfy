/**
 The statistics monitor as a state machine: requests of four kinds start and finish, other
 events are counted, and a snapshot reports the interval and clears it. The monitor's lock
 makes every event one atomic step; clock readings are part of the events.
 */
module StatsModel {
  import opened Text
  import opened Arithmetic
  import opened Requests

  // ---- request statistics ----

  datatype Lookup = Lookup(tokens: int, hits: int, finished: bool, start: real, end: real)
  {
    function TimeToLookup(): real {
      if end == 0.0 then 0.0 else end - start
    }

    function HitRate(): real {
      if tokens == 0 then 0.0 else hits as real / tokens as real
    }
  }

  datatype Retrieve = Retrieve(
    tokens: int, localHits: int, remoteHits: int, start: real, end: real,
    processTime: real, broadcastTime: real, toGpuTime: real, blockingTime: real, connectorTime: real)
  {
    function Hits(): int {
      localHits + remoteHits
    }

    function TimeToRetrieve(): real {
      if end == 0.0 then 0.0 else end - start
    }

    function Speed(): real {
      if TimeToRetrieve() == 0.0 then 0.0 else Hits() as real / TimeToRetrieve()
    }
  }

  datatype Store = Store(
    tokens: int, start: real, end: real, processTime: real, fromGpuTime: real, putTime: real)
  {
    function TimeToStore(): real {
      if end == 0.0 then 0.0 else end - start
    }

    function Speed(): real {
      if TimeToStore() == 0.0 then 0.0 else tokens as real / TimeToStore()
    }
  }

  datatype Transfer = Transfer(tokens: int, start: real, end: real)
  {
    function TimeToTransfer(): real {
      if end == 0.0 then 0.0 else end - start
    }

    function Speed(): real {
      if TimeToTransfer() == 0.0 then 0.0 else tokens as real / TimeToTransfer()
    }
  }

  // ---- events ----

  datatype Event =
    | LookupStart(tokens: int, now: real)
    | LookupFinish(id: nat, hits: int, now: real)
    | RetrieveStart(tokens: int, now: real)
    | RetrieveFinish(id: nat, hits: int, now: real)
    | RetrieveProfile(id: nat, process: real, broadcast: real, toGpu: real, blocking: real, connector: real)
    | StoreStart(tokens: int, now: real)
    | StoreFinish(id: nat, stored: int, now: real)
    | StoreProfile(id: nat, process: real, fromGpu: real, put: real)
    | TransferStart(tokens: int, now: real)
    | TransferFinish(id: nat, now: real)
    | ChunkReuse(seconds: real)
    | RemoteRead(bytes: int)
    | RemoteWrite(bytes: int)
    | RemoteGetTime(seconds: real)
    | RemotePutTime(seconds: real)
    | RemoteSyncGetTime(seconds: real)
    | Ping(code: int)
    | Evict(keys: int)
    | EvictFailed(count: int)
    | ForcedUnpin(count: int)
    | VllmHits(count: int)
    | PromptTokens(count: int)
    | LocalCacheUsage(bytes: int)
    | RemoteCacheUsage(bytes: int)
    | LocalStorageUsage(bytes: int)
    | ActiveObjects(count: int)
    | PinnedObjects(count: int)
    | PingLatency(seconds: real)
    | Snapshot

  // ---- the four tables ----

  function OpensLookup(e: Event): Option<Lookup> {
    if e.LookupStart? then Some(Lookup(e.tokens, 0, false, e.now, 0.0)) else None
  }

  /** A first non-zero reading stays the time of the end. */
  function EndTime(end: real, now: real): real {
    if end == 0.0 then now else end
  }

  function TouchLookup(e: Event, id: nat, v: Lookup): Lookup {
    if e.LookupFinish? && e.id == id then v.(hits := e.hits, finished := true, end := EndTime(v.end, e.now))
    else v
  }

  function LookupRules(): Rules<Event, Lookup> {
    Rules(IsSnapshot, OpensLookup, TouchLookup, LookupDone)
  }

  predicate IsSnapshot(e: Event) {
    e.Snapshot?
  }

  predicate LookupDone(v: Lookup) {
    v.finished
  }

  function OpensRetrieve(e: Event): Option<Retrieve> {
    if e.RetrieveStart? then Some(Retrieve(e.tokens, 0, 0, e.now, 0.0, 0.0, 0.0, 0.0, 0.0, 0.0)) else None
  }

  function TouchRetrieve(e: Event, id: nat, v: Retrieve): Retrieve {
    if e.RetrieveFinish? && e.id == id then v.(localHits := e.hits, end := EndTime(v.end, e.now))
    else if e.RetrieveProfile? && e.id == id then
      v.(processTime := v.processTime + e.process, broadcastTime := v.broadcastTime + e.broadcast,
         toGpuTime := v.toGpuTime + e.toGpu, blockingTime := v.blockingTime + e.blocking,
         connectorTime := v.connectorTime + e.connector)
    else v
  }

  function RetrieveRules(): Rules<Event, Retrieve> {
    Rules(IsSnapshot, OpensRetrieve, TouchRetrieve, RetrieveDone)
  }

  predicate RetrieveDone(v: Retrieve) {
    v.end != 0.0
  }

  function OpensStore(e: Event): Option<Store> {
    if e.StoreStart? then Some(Store(e.tokens, e.now, 0.0, 0.0, 0.0, 0.0)) else None
  }

  function TouchStore(e: Event, id: nat, v: Store): Store {
    if e.StoreFinish? && e.id == id then
      v.(end := EndTime(v.end, e.now), tokens := if e.stored >= 0 then e.stored else v.tokens)
    else if e.StoreProfile? && e.id == id then
      v.(processTime := v.processTime + e.process, fromGpuTime := v.fromGpuTime + e.fromGpu,
         putTime := v.putTime + e.put)
    else v
  }

  function StoreRules(): Rules<Event, Store> {
    Rules(IsSnapshot, OpensStore, TouchStore, StoreDone)
  }

  predicate StoreDone(v: Store) {
    v.end != 0.0
  }

  function OpensTransfer(e: Event): Option<Transfer> {
    if e.TransferStart? then Some(Transfer(e.tokens, e.now, 0.0)) else None
  }

  /** Unlike the other kinds, a transfer takes the latest reading. */
  function TouchTransfer(e: Event, id: nat, v: Transfer): Transfer {
    if e.TransferFinish? && e.id == id then v.(end := e.now) else v
  }

  function TransferRules(): Rules<Event, Transfer> {
    Rules(IsSnapshot, OpensTransfer, TouchTransfer, TransferDone)
  }

  predicate TransferDone(v: Transfer) {
    v.end != 0.0
  }

  // ---- interval counters ----

  datatype Counters = Counters(
    retrieveRequests: int, storeRequests: int, lookupRequests: int,
    requestedTokens: int, hitTokens: int, storedTokens: int, lookupTokens: int, lookupHits: int,
    lookupZeroHits: int, vllmHitTokens: int, promptTokens: int, slowByTime: int, slowBySpeed: int,
    transferRequests: int, transferredTokens: int, remoteReads: int, remoteReadBytes: int,
    remoteWrites: int, remoteWriteBytes: int, pingErrors: int, pingSuccesses: int,
    evictions: int, evictedKeys: int, evictFailures: int, forcedUnpins: int)
  {
    function Plus(c: Counters): Counters {
      Counters(
        retrieveRequests + c.retrieveRequests, storeRequests + c.storeRequests,
        lookupRequests + c.lookupRequests, requestedTokens + c.requestedTokens,
        hitTokens + c.hitTokens, storedTokens + c.storedTokens, lookupTokens + c.lookupTokens,
        lookupHits + c.lookupHits, lookupZeroHits + c.lookupZeroHits,
        vllmHitTokens + c.vllmHitTokens, promptTokens + c.promptTokens,
        slowByTime + c.slowByTime, slowBySpeed + c.slowBySpeed,
        transferRequests + c.transferRequests, transferredTokens + c.transferredTokens,
        remoteReads + c.remoteReads, remoteReadBytes + c.remoteReadBytes,
        remoteWrites + c.remoteWrites, remoteWriteBytes + c.remoteWriteBytes,
        pingErrors + c.pingErrors, pingSuccesses + c.pingSuccesses, evictions + c.evictions,
        evictedKeys + c.evictedKeys, evictFailures + c.evictFailures, forcedUnpins + c.forcedUnpins)
    }
  }

  const Zero := Counters(0, 0, 0, 0, 0, 0, 0, 0, 0, 0, 0, 0, 0, 0, 0, 0, 0, 0, 0, 0, 0, 0, 0, 0, 0)

  datatype Thresholds = Thresholds(time: real, speed: real)

  predicate SlowByTime(limits: Thresholds, v: Retrieve) {
    v.TimeToRetrieve() > limits.time
  }

  predicate SlowBySpeed(limits: Thresholds, v: Retrieve) {
    0.0 < v.Speed() < limits.speed
  }

  /** The request a finish event names, if it is in progress. */
  datatype Named = Named(lookup: Option<Lookup>, retrieve: Option<Retrieve>, transfer: Option<Transfer>)

  /** What an event adds to the counters, given the request it names. */
  function Added(limits: Thresholds, e: Event, named: Named): Counters {
    match e
    case LookupStart(n, _) => Zero.(lookupRequests := 1, lookupTokens := n)
    case LookupFinish(_, hits, _) =>
      if named.lookup.None? then Zero else Zero.(lookupHits := hits, lookupZeroHits := Bit(hits == 0))
    case RetrieveStart(n, _) => Zero.(retrieveRequests := 1, requestedTokens := n)
    case RetrieveFinish(id, hits, _) =>
      if named.retrieve.None? then Zero
      else
        var v := TouchRetrieve(e, id, named.retrieve.value);
        Zero.(hitTokens := hits, slowByTime := Bit(SlowByTime(limits, v)), slowBySpeed := Bit(SlowBySpeed(limits, v)))
    case StoreStart(n, _) => Zero.(storeRequests := 1, storedTokens := n)
    case TransferStart(_, _) => Zero.(transferRequests := 1)
    case TransferFinish(_, _) =>
      if named.transfer.None? then Zero else Zero.(transferredTokens := named.transfer.value.tokens)
    case RemoteRead(n) => Zero.(remoteReads := 1, remoteReadBytes := n)
    case RemoteWrite(n) => Zero.(remoteWrites := 1, remoteWriteBytes := n)
    case Ping(code) => Zero.(pingErrors := Bit(code != 0), pingSuccesses := Bit(code == 0))
    case Evict(n) => Zero.(evictions := 1, evictedKeys := n)
    case EvictFailed(n) => Zero.(evictFailures := n)
    case ForcedUnpin(n) => Zero.(forcedUnpins := n)
    case VllmHits(n) => Zero.(vllmHitTokens := n)
    case PromptTokens(n) => Zero.(promptTokens := n)
    case _ => Zero
  }

  /** The id an event names, or an unused one. */
  function IdOf(e: Event): nat {
    match e
    case LookupFinish(id, _, _) => id
    case RetrieveFinish(id, _, _) => id
    case RetrieveProfile(id, _, _, _, _, _) => id
    case StoreFinish(id, _, _) => id
    case StoreProfile(id, _, _, _) => id
    case TransferFinish(id, _) => id
    case _ => 0
  }

  // ---- warnings about slow retrievals ----

  datatype Limiter = Limiter(last: real, skipped: nat)

  datatype Warning = Warning(at: real, skipped: nat)

  predicate Slow(limits: Thresholds, e: Event, named: Named) {
    && e.RetrieveFinish? && named.retrieve.Some?
    && var v := TouchRetrieve(e, e.id, named.retrieve.value);
       SlowByTime(limits, v) || SlowBySpeed(limits, v)
  }

  function Warn(limiter: Limiter, slow: bool, now: real): (Limiter, seq<Warning>) {
    if !slow then (limiter, [])
    else if now - limiter.last > 10.0 then (Limiter(now, 0), [Warning(now, limiter.skipped)])
    else (limiter.(skipped := limiter.skipped + 1), [])
  }

  // ---- gauges ----

  /** Values that are set and not added up, except for the pinned objects. */
  datatype Gauges = Gauges(
    localCache: int, remoteCache: int, localStorage: int, activeObjects: int, pinnedObjects: int,
    pingLatency: real, pingCode: int)

  const NoGauges := Gauges(0, 0, 0, 0, 0, 0.0, 0)

  function GaugesStep(g: Gauges, e: Event): Gauges {
    match e
    case LocalCacheUsage(n) => g.(localCache := n)
    case RemoteCacheUsage(n) => g.(remoteCache := n)
    case LocalStorageUsage(n) => g.(localStorage := n)
    case ActiveObjects(n) => g.(activeObjects := n)
    case PinnedObjects(n) => g.(pinnedObjects := g.pinnedObjects + n)
    case PingLatency(seconds) => g.(pingLatency := seconds)
    case Ping(code) => g.(pingCode := code)
    case Snapshot => g.(pingLatency := 0.0, pingCode := 0)
    case _ => g
  }

  // ---- the monitor ----

  datatype State = State(
    limits: Thresholds,
    counters: Counters,
    getTimes: seq<real>,
    putTimes: seq<real>,
    syncTimes: seq<real>,
    lifespans: seq<real>,
    lookups: seq<Row<Lookup>>,
    nextLookup: nat,
    retrieves: seq<Row<Retrieve>>,
    nextRetrieve: nat,
    stores: seq<Row<Store>>,
    nextStore: nat,
    transfers: seq<Row<Transfer>>,
    nextTransfer: nat,
    limiter: Limiter,
    gauges: Gauges)

  function Initial(limits: Thresholds): State {
    State(limits, Zero, [], [], [], [], [], 0, [], 0, [], 0, [], 0, Limiter(0.0, 0), NoGauges)
  }

  function NamedIn(s: State, id: nat): Named {
    Named(Find(s.lookups, id), Find(s.retrieves, id), Find(s.transfers, id))
  }

  function AddsGet(e: Event): seq<real> {
    if e.RemoteGetTime? then [e.seconds] else []
  }

  function AddsPut(e: Event): seq<real> {
    if e.RemotePutTime? then [e.seconds] else []
  }

  function AddsSync(e: Event): seq<real> {
    if e.RemoteSyncGetTime? then [e.seconds] else []
  }

  /** The lifespan of a reused chunk, in minutes. */
  function AddsLifespan(e: Event): seq<real> {
    if e.ChunkReuse? then [e.seconds / 60.0] else []
  }

  function Clock(e: Event): real {
    if e.RetrieveFinish? then e.now else 0.0
  }

  /** The assertion that the finished request is in its table fails. */
  predicate Raises(s: State, e: Event) {
    match e
    case LookupFinish(id, _, _) => Find(s.lookups, id).None?
    case RetrieveFinish(id, _, _) => Find(s.retrieves, id).None?
    case StoreFinish(id, _, _) => Find(s.stores, id).None?
    case TransferFinish(id, _) => Find(s.transfers, id).None?
    case _ => false
  }

  /** One event; one that raises changes nothing. */
  function Step(s: State, e: Event): State {
    var named := NamedIn(s, IdOf(e));
    State(
      s.limits,
      if e.Snapshot? then Zero else s.counters.Plus(Added(s.limits, e, named)),
      if e.Snapshot? then [] else s.getTimes + AddsGet(e),
      if e.Snapshot? then [] else s.putTimes + AddsPut(e),
      if e.Snapshot? then [] else s.syncTimes + AddsSync(e),
      if e.Snapshot? then [] else s.lifespans + AddsLifespan(e),
      TableStep(LookupRules(), s.lookups, s.nextLookup, e),
      NextStep(LookupRules(), s.nextLookup, e),
      TableStep(RetrieveRules(), s.retrieves, s.nextRetrieve, e),
      NextStep(RetrieveRules(), s.nextRetrieve, e),
      TableStep(StoreRules(), s.stores, s.nextStore, e),
      NextStep(StoreRules(), s.nextStore, e),
      TableStep(TransferRules(), s.transfers, s.nextTransfer, e),
      NextStep(TransferRules(), s.nextTransfer, e),
      Warn(s.limiter, Slow(s.limits, e, named), Clock(e)).0,
      GaugesStep(s.gauges, e))
  }

  // ---- reports ----

  /** The non-zero values of `f` over the first `k` rows. */
  function NonZeroIn<T>(t: seq<Row<T>>, k: nat, f: T -> real): seq<real>
    requires k <= |t|
  {
    if k == 0 then [] else NonZeroIn(t, k - 1, f) + If(f(t[k - 1].stats) != 0.0, f(t[k - 1].stats))
  }

  function NonZero<T>(t: seq<Row<T>>, f: T -> real): seq<real> {
    NonZeroIn(t, |t|, f)
  }

  function RetrieveHits(v: Retrieve): int {
    v.Hits()
  }

  function RetrieveTokens(v: Retrieve): int {
    v.tokens
  }

  function RetrieveTime(v: Retrieve): real {
    v.TimeToRetrieve()
  }

  function RetrieveSpeed(v: Retrieve): real {
    v.Speed()
  }

  function StoreTime(v: Store): real {
    v.TimeToStore()
  }

  function StoreSpeed(v: Store): real {
    v.Speed()
  }

  function TransferTime(v: Transfer): real {
    v.TimeToTransfer()
  }

  function TransferSpeed(v: Transfer): real {
    v.Speed()
  }

  function RetrieveProcessTime(v: Retrieve): real {
    v.processTime
  }

  function RetrieveBroadcastTime(v: Retrieve): real {
    v.broadcastTime
  }

  function RetrieveToGpuTime(v: Retrieve): real {
    v.toGpuTime
  }

  function RetrieveBlockingTime(v: Retrieve): real {
    v.blockingTime
  }

  function RetrieveConnectorTime(v: Retrieve): real {
    v.connectorTime
  }

  function StoreProcessTime(v: Store): real {
    v.processTime
  }

  function StoreFromGpuTime(v: Store): real {
    v.fromGpuTime
  }

  function StorePutTime(v: Store): real {
    v.putTime
  }

  function LookupHits(v: Lookup): int {
    v.hits
  }

  function LookupTokens(v: Lookup): int {
    v.tokens
  }

  function LookupTime(v: Lookup): real {
    v.TimeToLookup()
  }

  function LookupHitRate(v: Lookup): real {
    v.HitRate()
  }

  function TransferTokens(v: Transfer): int {
    v.tokens
  }

  datatype Report = Report(
    counters: Counters,
    getTimes: seq<real>,
    putTimes: seq<real>,
    syncTimes: seq<real>,
    lifespans: seq<real>,
    retrieveHitRate: real,
    lookupHitRate: real,
    timesToRetrieve: seq<real>,
    timesToStore: seq<real>,
    timesToLookup: seq<real>,
    retrieveSpeeds: seq<real>,
    storeSpeeds: seq<real>,
    retrieveProcessTimes: seq<real>,
    retrieveBroadcastTimes: seq<real>,
    retrieveToGpuTimes: seq<real>,
    blockingGetTimes: seq<real>,
    connectorGetTimes: seq<real>,
    storeProcessTimes: seq<real>,
    storeFromGpuTimes: seq<real>,
    storePutTimes: seq<real>,
    transferTimes: seq<real>,
    transferSpeeds: seq<real>,
    lookupHitRates: seq<real>,
    gauges: Gauges)

  function Rate(part: int, whole: int, none: real): real {
    if whole == 0 then none else part as real / whole as real
  }

  function ReportOf(s: State): Report {
    var retrieved := Select(s.retrieves, RetrieveDone, true);
    var looked := Select(s.lookups, LookupDone, true);
    Report(
      s.counters, s.getTimes, s.putTimes, s.syncTimes, s.lifespans,
      Rate(Sum(retrieved, RetrieveHits), Sum(retrieved, RetrieveTokens), 1.0),
      Rate(Sum(looked, LookupHits), Sum(looked, LookupTokens), 0.0),
      NonZero(s.retrieves, RetrieveTime),
      NonZero(s.stores, StoreTime),
      NonZero(s.lookups, LookupTime),
      NonZero(s.retrieves, RetrieveSpeed),
      NonZero(s.stores, StoreSpeed),
      NonZero(s.retrieves, RetrieveProcessTime),
      NonZero(s.retrieves, RetrieveBroadcastTime),
      NonZero(s.retrieves, RetrieveToGpuTime),
      NonZero(s.retrieves, RetrieveBlockingTime),
      NonZero(s.retrieves, RetrieveConnectorTime),
      NonZero(s.stores, StoreProcessTime),
      NonZero(s.stores, StoreFromGpuTime),
      NonZero(s.stores, StorePutTime),
      NonZero(s.transfers, TransferTime),
      NonZero(s.transfers, TransferSpeed),
      NonZero(looked, LookupHitRate),
      s.gauges)
  }
}
