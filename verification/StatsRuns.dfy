/** What holds of the statistics monitor over every sequence of events. */
module StatsRuns {
  import opened Text
  import opened Requests
  import opened StatsModel

  function StateAt(limits: Thresholds, es: seq<Event>, n: nat): State
    requires n <= |es|
  {
    RunAt(Step, Initial(limits), es, n)
  }

  lemma {:induction false} StateNext(limits: Thresholds, es: seq<Event>, n: nat)
    requires n < |es|
    ensures StateAt(limits, es, n + 1) == Step(StateAt(limits, es, n), es[n])
  {
  }

  function LookupTable(s: State): seq<Row<Lookup>> {
    s.lookups
  }

  function NextLookup(s: State): nat {
    s.nextLookup
  }

  function RetrieveTable(s: State): seq<Row<Retrieve>> {
    s.retrieves
  }

  function NextRetrieve(s: State): nat {
    s.nextRetrieve
  }

  function StoreTable(s: State): seq<Row<Store>> {
    s.stores
  }

  function NextStore(s: State): nat {
    s.nextStore
  }

  function TransferTable(s: State): seq<Row<Transfer>> {
    s.transfers
  }

  function NextTransfer(s: State): nat {
    s.nextTransfer
  }

  lemma {:induction false} StepTables()
    ensures Simulates(Step, LookupRules(), LookupTable, NextLookup)
    ensures Simulates(Step, RetrieveRules(), RetrieveTable, NextRetrieve)
    ensures Simulates(Step, StoreRules(), StoreTable, NextStore)
    ensures Simulates(Step, TransferRules(), TransferTable, NextTransfer)
  {
  }

  lemma {:induction false} TablesAt(limits: Thresholds, es: seq<Event>, n: nat)
    requires n <= |es|
    ensures var s := StateAt(limits, es, n);
            && s.lookups == TableAt(LookupRules(), es, n) && s.nextLookup == Issued(LookupRules(), es, n)
            && s.retrieves == TableAt(RetrieveRules(), es, n) && s.nextRetrieve == Issued(RetrieveRules(), es, n)
            && s.stores == TableAt(StoreRules(), es, n) && s.nextStore == Issued(StoreRules(), es, n)
            && s.transfers == TableAt(TransferRules(), es, n) && s.nextTransfer == Issued(TransferRules(), es, n)
  {
    StepTables();
    SimulatesAt(Step, Initial(limits), LookupRules(), LookupTable, NextLookup, es, n);
    SimulatesAt(Step, Initial(limits), RetrieveRules(), RetrieveTable, NextRetrieve, es, n);
    SimulatesAt(Step, Initial(limits), StoreRules(), StoreTable, NextStore, es, n);
    SimulatesAt(Step, Initial(limits), TransferRules(), TransferTable, NextTransfer, es, n);
  }

  // ---- recorded times ----

  function PendingGets(s: State): seq<real> {
    s.getTimes
  }

  function PendingPuts(s: State): seq<real> {
    s.putTimes
  }

  function PendingSyncs(s: State): seq<real> {
    s.syncTimes
  }

  function PendingLifespans(s: State): seq<real> {
    s.lifespans
  }

  lemma {:induction false} StepLists()
    ensures Collects(Step, IsSnapshot, AddsGet, PendingGets)
    ensures Collects(Step, IsSnapshot, AddsPut, PendingPuts)
    ensures Collects(Step, IsSnapshot, AddsSync, PendingSyncs)
    ensures Collects(Step, IsSnapshot, AddsLifespan, PendingLifespans)
  {
  }

  lemma {:induction false} ListsAt(limits: Thresholds, es: seq<Event>, n: nat)
    requires n <= |es|
    ensures var s := StateAt(limits, es, n);
            && s.getTimes == Pending(IsSnapshot, AddsGet, es, n)
            && s.putTimes == Pending(IsSnapshot, AddsPut, es, n)
            && s.syncTimes == Pending(IsSnapshot, AddsSync, es, n)
            && s.lifespans == Pending(IsSnapshot, AddsLifespan, es, n)
  {
    StepLists();
    CollectsAt(Step, Initial(limits), IsSnapshot, AddsGet, PendingGets, es, n);
    CollectsAt(Step, Initial(limits), IsSnapshot, AddsPut, PendingPuts, es, n);
    CollectsAt(Step, Initial(limits), IsSnapshot, AddsSync, PendingSyncs, es, n);
    CollectsAt(Step, Initial(limits), IsSnapshot, AddsLifespan, PendingLifespans, es, n);
  }

  // ---- reports ----

  /** What a snapshot in place `i` of a run would report. */
  function Made(limits: Thresholds, es: seq<Event>): nat -> Report {
    (i: nat) => ReportOf(if i <= |es| then StateAt(limits, es, i) else Initial(limits))
  }

  /** The reports made by the first `n` events. */
  function ReportsAt(made: nat -> Report, es: seq<Event>, n: nat): seq<Report>
    requires n <= |es|
  {
    if n == 0 then [] else ReportsAt(made, es, n - 1) + If(es[n - 1].Snapshot?, made(n - 1))
  }

  function Joined(reports: seq<Report>, k: nat, list: Report -> seq<real>): seq<real>
    requires k <= |reports|
  {
    if k == 0 then [] else Joined(reports, k - 1, list) + list(reports[k - 1])
  }

  lemma {:induction false} JoinedPrefix(reports: seq<Report>, more: seq<Report>, k: nat, list: Report -> seq<real>)
    requires k <= |reports|
    ensures Joined(reports + more, k, list) == Joined(reports, k, list)
    decreases k
  {
    if k > 0 {
      JoinedPrefix(reports, more, k - 1, list);
    }
  }

  lemma {:induction false} JoinedIf(reports: seq<Report>, c: bool, r: Report, list: Report -> seq<real>)
    ensures Joined(reports + If(c, r), |reports + If(c, r)|, list)
            == Joined(reports, |reports|, list) + if c then list(r) else []
  {
    JoinedPrefix(reports, If(c, r), |reports|, list);
  }

  /** `list` picks from a report what had been collected. */
  ghost predicate Picks(made: nat -> Report, es: seq<Event>, adds: Event -> seq<real>, list: Report -> seq<real>) {
    forall i: nat | i < |es| :: list(made(i)) == Pending(IsSnapshot, adds, es, i)
  }

  lemma {:induction false} JoinedIsEmitted(made: nat -> Report, es: seq<Event>, n: nat, adds: Event -> seq<real>, list: Report -> seq<real>)
    requires n <= |es| && Picks(made, es, adds, list)
    ensures var reports := ReportsAt(made, es, n);
            Joined(reports, |reports|, list) == Emitted(IsSnapshot, adds, es, n)
    decreases n
  {
    if n > 0 {
      JoinedIsEmitted(made, es, n - 1, adds, list);
      JoinedNext(made, es, n, list);
    }
  }

  lemma {:induction false} JoinedNext(made: nat -> Report, es: seq<Event>, n: nat, list: Report -> seq<real>)
    requires 0 < n <= |es|
    ensures var reports, before := ReportsAt(made, es, n), ReportsAt(made, es, n - 1);
            Joined(reports, |reports|, list)
            == Joined(before, |before|, list) + if es[n - 1].Snapshot? then list(made(n - 1)) else []
  {
    JoinedIf(ReportsAt(made, es, n - 1), es[n - 1].Snapshot?, made(n - 1), list);
  }

  lemma {:induction false} ListConserved(made: nat -> Report, es: seq<Event>, n: nat, adds: Event -> seq<real>, list: Report -> seq<real>)
    requires n <= |es| && Picks(made, es, adds, list)
    ensures var reports := ReportsAt(made, es, n);
            Joined(reports, |reports|, list) + Pending(IsSnapshot, adds, es, n) == Recorded(IsSnapshot, adds, es, n)
  {
    JoinedIsEmitted(made, es, n, adds, list);
    EmittedInOrder(IsSnapshot, adds, es, n);
  }

  function GetTimes(r: Report): seq<real> {
    r.getTimes
  }

  function PutTimes(r: Report): seq<real> {
    r.putTimes
  }

  function SyncTimes(r: Report): seq<real> {
    r.syncTimes
  }

  function Lifespans(r: Report): seq<real> {
    r.lifespans
  }

  lemma {:induction false} ReportLists(s: State)
    ensures GetTimes(ReportOf(s)) == s.getTimes && PutTimes(ReportOf(s)) == s.putTimes
    ensures SyncTimes(ReportOf(s)) == s.syncTimes && Lifespans(ReportOf(s)) == s.lifespans
    ensures ReportOf(s).counters == s.counters
  {
  }

  lemma {:induction false} MadeLists(limits: Thresholds, es: seq<Event>, i: nat)
    requires i < |es|
    ensures var r := Made(limits, es)(i);
            && GetTimes(r) == Pending(IsSnapshot, AddsGet, es, i)
            && PutTimes(r) == Pending(IsSnapshot, AddsPut, es, i)
            && SyncTimes(r) == Pending(IsSnapshot, AddsSync, es, i)
            && Lifespans(r) == Pending(IsSnapshot, AddsLifespan, es, i)
  {
    ListsAt(limits, es, i);
    ReportLists(StateAt(limits, es, i));
  }

  lemma {:induction false} RunPicks(limits: Thresholds, es: seq<Event>)
    ensures var made := Made(limits, es);
            && Picks(made, es, AddsGet, GetTimes) && Picks(made, es, AddsPut, PutTimes)
            && Picks(made, es, AddsSync, SyncTimes) && Picks(made, es, AddsLifespan, Lifespans)
  {
    var made := Made(limits, es);
    forall i: nat | i < |es|
      ensures GetTimes(made(i)) == Pending(IsSnapshot, AddsGet, es, i)
      ensures PutTimes(made(i)) == Pending(IsSnapshot, AddsPut, es, i)
      ensures SyncTimes(made(i)) == Pending(IsSnapshot, AddsSync, es, i)
      ensures Lifespans(made(i)) == Pending(IsSnapshot, AddsLifespan, es, i)
    {
      MadeLists(limits, es, i);
    }
  }

  /**
   Over every run the reported time lists, one after the other and followed by the pending
   ones, are everything ever recorded, in order.
   */
  lemma {:induction false} TimesConserved(limits: Thresholds, es: seq<Event>, n: nat)
    requires n <= |es|
    ensures var reports, s := ReportsAt(Made(limits, es), es, n), StateAt(limits, es, n);
            && Joined(reports, |reports|, GetTimes) + s.getTimes == Recorded(IsSnapshot, AddsGet, es, n)
            && Joined(reports, |reports|, PutTimes) + s.putTimes == Recorded(IsSnapshot, AddsPut, es, n)
            && Joined(reports, |reports|, SyncTimes) + s.syncTimes == Recorded(IsSnapshot, AddsSync, es, n)
            && Joined(reports, |reports|, Lifespans) + s.lifespans == Recorded(IsSnapshot, AddsLifespan, es, n)
  {
    var made := Made(limits, es);
    RunPicks(limits, es);
    ListsAt(limits, es, n);
    ListConserved(made, es, n, AddsGet, GetTimes);
    ListConserved(made, es, n, AddsPut, PutTimes);
    ListConserved(made, es, n, AddsSync, SyncTimes);
    ListConserved(made, es, n, AddsLifespan, Lifespans);
  }

  // ---- counters ----

  function Plus(a: Counters, b: Counters): Counters {
    a.Plus(b)
  }

  lemma {:induction false} PlusLaws()
    ensures Additive(Plus, Zero)
  {
  }

  function Current<T>(life: Life<T>): Option<T> {
    if life.Active? then Some(life.stats) else None
  }

  /** The requests that event `i` can name, each from its own life alone. */
  function NamedBy(es: seq<Event>, i: nat): Named
    requires i < |es|
  {
    var id := IdOf(es[i]);
    Named(Current(LifeAt(LookupRules(), es, i, id)), Current(LifeAt(RetrieveRules(), es, i, id)),
          Current(LifeAt(TransferRules(), es, i, id)))
  }

  lemma {:induction false} NamedInTables(s: State, es: seq<Event>, i: nat)
    requires i < |es| && s.lookups == TableAt(LookupRules(), es, i)
    requires s.retrieves == TableAt(RetrieveRules(), es, i) && s.transfers == TableAt(TransferRules(), es, i)
    ensures NamedIn(s, IdOf(es[i])) == NamedBy(es, i)
  {
    var id := IdOf(es[i]);
    FoundIff(LookupRules(), es, i, id);
    FoundIff(RetrieveRules(), es, i, id);
    FoundIff(TransferRules(), es, i, id);
  }

  function LimitsOf(s: State): Thresholds {
    s.limits
  }

  lemma {:induction false} StepLimits()
    ensures forall s: State, e: Event {:trigger Step(s, e)} :: LimitsOf(Step(s, e)) == LimitsOf(s)
  {
  }

  lemma {:induction false} LimitsAt(limits: Thresholds, es: seq<Event>, n: nat)
    requires n <= |es|
    ensures StateAt(limits, es, n).limits == limits
  {
    StepLimits();
    KeepsAt(Step, Initial(limits), LimitsOf, es, n);
  }

  /** What event `i` counts. */
  function CountedBy(limits: Thresholds, es: seq<Event>, i: nat): Counters {
    if i < |es| then Added(limits, es[i], NamedBy(es, i)) else Zero
  }

  function Snapshots(es: seq<Event>): nat -> bool {
    (i: nat) => i < |es| && es[i].Snapshot?
  }

  /** An event adds to the counters, or clears them. */
  ghost predicate Adds(step: (State, Event) -> State, s: State, e: Event, added: Counters) {
    && (e.Snapshot? ==> added == Zero)
    && step(s, e).counters == if e.Snapshot? then Zero else s.counters.Plus(added)
  }

  lemma {:induction false} SnapshotAddsNothing(limits: Thresholds, named: Named)
    ensures Added(limits, Snapshot, named) == Zero
  {
  }

  lemma {:induction false} StepCounters(s: State, e: Event)
    ensures Adds(Step, s, e, Added(s.limits, e, NamedIn(s, IdOf(e))))
  {
    SnapshotAddsNothing(s.limits, NamedIn(s, IdOf(e)));
    AddsIn(Step, s, e, Added(s.limits, e, NamedIn(s, IdOf(e))));
  }

  lemma {:induction false} AddsIn(step: (State, Event) -> State, s: State, e: Event, added: Counters)
    requires e.Snapshot? ==> added == Zero
    requires step(s, e).counters == if e.Snapshot? then Zero else s.counters.Plus(added)
    ensures Adds(step, s, e, added)
  {
  }

  lemma {:induction false} CountersStep(limits: Thresholds, es: seq<Event>, i: nat)
    requires i < |es|
    ensures Adds(Step, RunAt(Step, Initial(limits), es, i), es[i], CountedBy(limits, es, i))
  {
    var s := StateAt(limits, es, i);
    TablesAt(limits, es, i);
    LimitsAt(limits, es, i);
    NamedInTables(s, es, i);
    StepCounters(s, es[i]);
  }

  /** The counters before event `i`. */
  function CountersIn(step: (State, Event) -> State, init: State, es: seq<Event>): nat -> Counters {
    (i: nat) => if i <= |es| then RunAt(step, init, es, i).counters else Zero
  }

  function PendingCounters(limits: Thresholds, es: seq<Event>): nat -> Counters {
    CountersIn(Step, Initial(limits), es)
  }

  function CountedIn(limits: Thresholds, es: seq<Event>): nat -> Counters {
    (i: nat) => CountedBy(limits, es, i)
  }

  lemma {:induction false} Accumulates(step: (State, Event) -> State, init: State, es: seq<Event>, counted: nat -> Counters, i: nat, added: Counters)
    requires i < |es| && counted(i) == added && Adds(step, RunAt(step, init, es, i), es[i], added)
    ensures AccumulatesAt(Plus, Zero, CountersIn(step, init, es), Snapshots(es), counted, i)
  {
  }

  lemma {:induction false} RunAccumulates(limits: Thresholds, es: seq<Event>, i: nat)
    requires i < |es|
    ensures AccumulatesAt(Plus, Zero, PendingCounters(limits, es), Snapshots(es), CountedIn(limits, es), i)
  {
    CountersStep(limits, es, i);
    Accumulates(Step, Initial(limits), es, CountedIn(limits, es), i, CountedBy(limits, es, i));
  }

  lemma {:induction false} MadeCounters(limits: Thresholds, es: seq<Event>, i: nat)
    requires i < |es|
    ensures Made(limits, es)(i).counters == PendingCounters(limits, es)(i)
  {
    ReportLists(StateAt(limits, es, i));
  }

  /** Over every run the reported counters and the pending ones add up to everything counted. */
  lemma {:induction false} CountersConserved(limits: Thresholds, es: seq<Event>, n: nat)
    requires n <= |es|
    ensures var pending := PendingCounters(limits, es);
            && (forall i | 0 <= i < |es| :: Made(limits, es)(i).counters == pending(i))
            && Plus(Gathered(Plus, Zero, pending, Snapshots(es), n), pending(n))
               == Amount(Plus, Zero, CountedIn(limits, es), n)
  {
    var pending, counted := PendingCounters(limits, es), CountedIn(limits, es);
    forall i | 0 <= i < |es|
      ensures Made(limits, es)(i).counters == pending(i)
      ensures AccumulatesAt(Plus, Zero, pending, Snapshots(es), counted, i)
    {
      MadeCounters(limits, es, i);
      RunAccumulates(limits, es, i);
    }
    PlusLaws();
    AmountConserved(Plus, Zero, pending, Snapshots(es), counted, n);
  }

  // ---- gauges ----

  /** The value that the last event to set one has set. */
  function Latest<A>(sets: Event -> Option<A>, none: A, es: seq<Event>, n: nat): A
    requires n <= |es|
  {
    if n == 0 then none else if sets(es[n - 1]).Some? then sets(es[n - 1]).value else Latest(sets, none, es, n - 1)
  }

  ghost predicate IsSetBy<A>(gauge: Gauges -> A, sets: Event -> Option<A>) {
    forall g: Gauges, e: Event {:trigger GaugesStep(g, e)} ::
      gauge(GaugesStep(g, e)) == if sets(e).Some? then sets(e).value else gauge(g)
  }

  /** The gauges after `n` events, which depend on nothing else. */
  function GaugesRun(es: seq<Event>, n: nat): Gauges
    requires n <= |es|
  {
    RunAt(GaugesStep, NoGauges, es, n)
  }

  lemma {:induction false} GaugesAlone(step: (State, Event) -> State, init: State, es: seq<Event>, n: nat)
    requires n <= |es| && init.gauges == NoGauges
    requires forall s: State, e: Event {:trigger step(s, e)} :: step(s, e).gauges == GaugesStep(s.gauges, e)
    ensures RunAt(step, init, es, n).gauges == GaugesRun(es, n)
    decreases n
  {
    if n > 0 {
      GaugesAlone(step, init, es, n - 1);
    }
  }

  lemma {:induction false} StepGauges()
    ensures forall s: State, e: Event {:trigger Step(s, e)} :: Step(s, e).gauges == GaugesStep(s.gauges, e)
  {
  }

  lemma {:induction false} LatestAt<A>(gauge: Gauges -> A, sets: Event -> Option<A>, es: seq<Event>, n: nat)
    requires n <= |es| && IsSetBy(gauge, sets)
    ensures gauge(GaugesRun(es, n)) == Latest(sets, gauge(NoGauges), es, n)
    decreases n
  {
    if n > 0 {
      LatestAt(gauge, sets, es, n - 1);
    }
  }

  function SetsLocalCache(e: Event): Option<int> {
    if e.LocalCacheUsage? then Some(e.bytes) else None
  }

  function SetsRemoteCache(e: Event): Option<int> {
    if e.RemoteCacheUsage? then Some(e.bytes) else None
  }

  function SetsLocalStorage(e: Event): Option<int> {
    if e.LocalStorageUsage? then Some(e.bytes) else None
  }

  function SetsActive(e: Event): Option<int> {
    if e.ActiveObjects? then Some(e.count) else None
  }

  /** The latency of the last ping of the interval; a snapshot forgets it. */
  function SetsLatency(e: Event): Option<real> {
    if e.PingLatency? then Some(e.seconds) else if e.Snapshot? then Some(0.0) else None
  }

  function SetsCode(e: Event): Option<int> {
    if e.Ping? then Some(e.code) else if e.Snapshot? then Some(0) else None
  }

  /** The sum of all changes of the number of pinned objects. */
  function Pinned(es: seq<Event>, n: nat): int
    requires n <= |es|
  {
    if n == 0 then 0 else Pinned(es, n - 1) + if es[n - 1].PinnedObjects? then es[n - 1].count else 0
  }

  lemma {:induction false} PinnedAt(es: seq<Event>, n: nat)
    requires n <= |es|
    ensures GaugesRun(es, n).pinnedObjects == Pinned(es, n)
    decreases n
  {
    if n > 0 {
      PinnedAt(es, n - 1);
    }
  }

  /**
   In every run a report has the latest value of each gauge, the latency and the code of the last
   ping since the snapshot before, and the pinned objects as the sum of all changes.
   */
  lemma {:induction false} GaugesAt(limits: Thresholds, es: seq<Event>, n: nat)
    requires n <= |es|
    ensures ReportOf(StateAt(limits, es, n)).gauges
            == Gauges(Latest(SetsLocalCache, 0, es, n), Latest(SetsRemoteCache, 0, es, n), Latest(SetsLocalStorage, 0, es, n),
                      Latest(SetsActive, 0, es, n), Pinned(es, n), Latest(SetsLatency, 0.0, es, n), Latest(SetsCode, 0, es, n))
  {
    StepGauges();
    GaugesAlone(Step, Initial(limits), es, n);
    GaugesLatest(es, n);
  }

  lemma {:induction false} GaugesLatest(es: seq<Event>, n: nat)
    requires n <= |es|
    ensures GaugesRun(es, n)
            == Gauges(Latest(SetsLocalCache, 0, es, n), Latest(SetsRemoteCache, 0, es, n), Latest(SetsLocalStorage, 0, es, n),
                      Latest(SetsActive, 0, es, n), Pinned(es, n), Latest(SetsLatency, 0.0, es, n), Latest(SetsCode, 0, es, n))
  {
    UsageLatest(es, n);
    PingLatest(es, n);
    PinnedAt(es, n);
  }

  lemma {:induction false} UsageLatest(es: seq<Event>, n: nat)
    requires n <= |es|
    ensures var g := GaugesRun(es, n);
            && g.localCache == Latest(SetsLocalCache, 0, es, n) && g.remoteCache == Latest(SetsRemoteCache, 0, es, n)
            && g.localStorage == Latest(SetsLocalStorage, 0, es, n)
  {
    LatestAt((g: Gauges) => g.localCache, SetsLocalCache, es, n);
    LatestAt((g: Gauges) => g.remoteCache, SetsRemoteCache, es, n);
    LatestAt((g: Gauges) => g.localStorage, SetsLocalStorage, es, n);
  }

  lemma {:induction false} PingLatest(es: seq<Event>, n: nat)
    requires n <= |es|
    ensures var g := GaugesRun(es, n);
            && g.activeObjects == Latest(SetsActive, 0, es, n)
            && g.pingLatency == Latest(SetsLatency, 0.0, es, n) && g.pingCode == Latest(SetsCode, 0, es, n)
  {
    LatestAt((g: Gauges) => g.activeObjects, SetsActive, es, n);
    LatestAt((g: Gauges) => g.pingLatency, SetsLatency, es, n);
    LatestAt((g: Gauges) => g.pingCode, SetsCode, es, n);
  }
}
