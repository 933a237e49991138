/** Each step of the monitor as the few fields it changes. */
module StatsSteps {
  import opened Text
  import opened Requests
  import opened StatsModel

  lemma {:induction false} Untouched<T(!new)>(r: Rules<Event, T>, t: seq<Row<T>>, next: nat, e: Event)
    requires !r.harvests(e) && r.opens(e).None? && forall id: nat, v: T :: r.touch(e, id, v) == v
    ensures TableStep(r, t, next, e) == t && NextStep(r, next, e) == next
  {
  }

  const Nobody := Named(None, None, None)

  predicate OfLookup(e: Event) {
    e.LookupStart? || e.LookupFinish? || e.Snapshot?
  }

  predicate OfRetrieve(e: Event) {
    e.RetrieveStart? || e.RetrieveFinish? || e.RetrieveProfile? || e.Snapshot?
  }

  predicate OfStore(e: Event) {
    e.StoreStart? || e.StoreFinish? || e.StoreProfile? || e.Snapshot?
  }

  predicate OfTransfer(e: Event) {
    e.TransferStart? || e.TransferFinish? || e.Snapshot?
  }

  /** The four tables after an event, where an event of another kind changes nothing. */
  lemma {:induction false} TablesAfter(s: State, e: Event)
    ensures !OfLookup(e) ==> Step(s, e).lookups == s.lookups && Step(s, e).nextLookup == s.nextLookup
    ensures !OfRetrieve(e) ==> Step(s, e).retrieves == s.retrieves && Step(s, e).nextRetrieve == s.nextRetrieve
    ensures !OfStore(e) ==> Step(s, e).stores == s.stores && Step(s, e).nextStore == s.nextStore
    ensures !OfTransfer(e) ==> Step(s, e).transfers == s.transfers && Step(s, e).nextTransfer == s.nextTransfer
  {
    if !OfLookup(e) {
      Untouched(LookupRules(), s.lookups, s.nextLookup, e);
    }
    if !OfRetrieve(e) {
      Untouched(RetrieveRules(), s.retrieves, s.nextRetrieve, e);
    }
    if !OfStore(e) {
      Untouched(StoreRules(), s.stores, s.nextStore, e);
    }
    if !OfTransfer(e) {
      Untouched(TransferRules(), s.transfers, s.nextTransfer, e);
    }
  }

  /** The state after an event that is not a snapshot, table by table. */
  lemma {:induction false} StepFields(s: State, e: Event)
    requires !e.Snapshot?
    ensures var s' := Step(s, e);
            && s'.limits == s.limits
            && s'.counters == s.counters.Plus(Added(s.limits, e, NamedIn(s, IdOf(e))))
            && s'.getTimes == s.getTimes + AddsGet(e)
            && s'.putTimes == s.putTimes + AddsPut(e)
            && s'.syncTimes == s.syncTimes + AddsSync(e)
            && s'.lifespans == s.lifespans + AddsLifespan(e)
            && s'.gauges == GaugesStep(s.gauges, e)
            && s'.limiter == Warn(s.limiter, Slow(s.limits, e, NamedIn(s, IdOf(e))), Clock(e)).0
  {
  }

  predicate Timed(e: Event) {
    e.ChunkReuse? || e.RemoteGetTime? || e.RemotePutTime? || e.RemoteSyncGetTime?
  }

  predicate Gauged(e: Event) {
    || e.LocalCacheUsage? || e.RemoteCacheUsage? || e.LocalStorageUsage? || e.ActiveObjects? || e.PinnedObjects?
    || e.PingLatency?
  }

  /** An event that names no request, records nothing and sets no gauge only counts. */
  lemma {:induction false} CountStep(s: State, e: Event)
    requires !OfLookup(e) && !OfRetrieve(e) && !OfStore(e) && !OfTransfer(e) && !Timed(e) && !Gauged(e) && !e.Ping?
    ensures Step(s, e) == s.(counters := s.counters.Plus(Added(s.limits, e, Nobody)))
  {
    TablesAfter(s, e);
    StepFields(s, e);
  }

  /** A ping counts and is a gauge too. */
  lemma {:induction false} PingStep(s: State, e: Event)
    requires e.Ping?
    ensures Step(s, e) == s.(counters := s.counters.Plus(Added(s.limits, e, Nobody)), gauges := s.gauges.(pingCode := e.code))
  {
    TablesAfter(s, e);
    StepFields(s, e);
  }

  lemma {:induction false} GaugeStep(s: State, e: Event)
    requires Gauged(e)
    ensures Step(s, e) == s.(gauges := GaugesStep(s.gauges, e))
  {
    TablesAfter(s, e);
    StepFields(s, e);
    CountNothing(s);
    assert Added(s.limits, e, NamedIn(s, IdOf(e))) == Zero;
  }

  /** An event that records a time only extends its list. */
  lemma {:induction false} RecordStep(s: State, e: Event)
    requires Timed(e)
    ensures Step(s, e)
            == s.(getTimes := s.getTimes + AddsGet(e), putTimes := s.putTimes + AddsPut(e),
                  syncTimes := s.syncTimes + AddsSync(e), lifespans := s.lifespans + AddsLifespan(e))
  {
    TablesAfter(s, e);
    StepFields(s, e);
    CountNothing(s);
  }

  lemma {:induction false} LookupStartStep(s: State, tokens: int, now: real)
    ensures var e := LookupStart(tokens, now);
            Step(s, e) == s.(counters := s.counters.Plus(Added(s.limits, e, Nobody)),
                             lookups := TableStep(LookupRules(), s.lookups, s.nextLookup, e), nextLookup := s.nextLookup + 1)
  {
    TablesAfter(s, LookupStart(tokens, now));
    StepFields(s, LookupStart(tokens, now));
  }

  lemma {:induction false} LookupFinishStep(s: State, e: Event)
    requires e.LookupFinish?
    ensures Step(s, e)
            == s.(counters := s.counters.Plus(Added(s.limits, e, Named(Find(s.lookups, e.id), None, None))),
                  lookups := TableStep(LookupRules(), s.lookups, s.nextLookup, e))
  {
    TablesAfter(s, e);
    StepFields(s, e);
  }

  lemma {:induction false} RetrieveStartStep(s: State, tokens: int, now: real)
    ensures var e := RetrieveStart(tokens, now);
            Step(s, e) == s.(counters := s.counters.Plus(Added(s.limits, e, Nobody)),
                             retrieves := TableStep(RetrieveRules(), s.retrieves, s.nextRetrieve, e), nextRetrieve := s.nextRetrieve + 1)
  {
    TablesAfter(s, RetrieveStart(tokens, now));
    StepFields(s, RetrieveStart(tokens, now));
  }

  lemma {:induction false} RetrieveFinishStep(s: State, e: Event)
    requires e.RetrieveFinish?
    ensures Step(s, e)
            == s.(counters := s.counters.Plus(Added(s.limits, e, Named(None, Find(s.retrieves, e.id), None))),
                  retrieves := TableStep(RetrieveRules(), s.retrieves, s.nextRetrieve, e),
                  limiter := Warn(s.limiter, Slow(s.limits, e, Named(None, Find(s.retrieves, e.id), None)), e.now).0)
  {
    TablesAfter(s, e);
    StepFields(s, e);
  }

  lemma {:induction false} RetrieveProfileStep(s: State, e: Event)
    requires e.RetrieveProfile?
    ensures Step(s, e)
            == s.(retrieves := TableStep(RetrieveRules(), s.retrieves, s.nextRetrieve, e))
  {
    TablesAfter(s, e);
    StepFields(s, e);
    CountNothing(s);
  }

  lemma {:induction false} StoreStartStep(s: State, tokens: int, now: real)
    ensures var e := StoreStart(tokens, now);
            Step(s, e) == s.(counters := s.counters.Plus(Added(s.limits, e, Nobody)),
                             stores := TableStep(StoreRules(), s.stores, s.nextStore, e), nextStore := s.nextStore + 1)
  {
    TablesAfter(s, StoreStart(tokens, now));
    StepFields(s, StoreStart(tokens, now));
  }

  lemma {:induction false} StoreFinishStep(s: State, e: Event)
    requires e.StoreFinish?
    ensures Step(s, e)
            == s.(stores := TableStep(StoreRules(), s.stores, s.nextStore, e))
  {
    TablesAfter(s, e);
    StepFields(s, e);
    CountNothing(s);
  }

  lemma {:induction false} StoreProfileStep(s: State, e: Event)
    requires e.StoreProfile?
    ensures Step(s, e)
            == s.(stores := TableStep(StoreRules(), s.stores, s.nextStore, e))
  {
    TablesAfter(s, e);
    StepFields(s, e);
    CountNothing(s);
  }

  lemma {:induction false} TransferStartStep(s: State, tokens: int, now: real)
    ensures var e := TransferStart(tokens, now);
            Step(s, e) == s.(counters := s.counters.Plus(Added(s.limits, e, Nobody)),
                             transfers := TableStep(TransferRules(), s.transfers, s.nextTransfer, e), nextTransfer := s.nextTransfer + 1)
  {
    TablesAfter(s, TransferStart(tokens, now));
    StepFields(s, TransferStart(tokens, now));
  }

  lemma {:induction false} TransferFinishStep(s: State, e: Event)
    requires e.TransferFinish?
    ensures Step(s, e)
            == s.(counters := s.counters.Plus(Added(s.limits, e, Named(None, None, Find(s.transfers, e.id)))),
                  transfers := TableStep(TransferRules(), s.transfers, s.nextTransfer, e))
  {
    TablesAfter(s, e);
    StepFields(s, e);
  }

  lemma {:induction false} SnapshotStep(s: State)
    ensures Step(s, Snapshot)
            == s.(counters := Zero, getTimes := [], putTimes := [], syncTimes := [], lifespans := [],
                  gauges := s.gauges.(pingLatency := 0.0, pingCode := 0),
                  lookups := Select(s.lookups, LookupDone, false),
                  retrieves := Select(s.retrieves, RetrieveDone, false),
                  stores := Select(s.stores, StoreDone, false),
                  transfers := Select(s.transfers, TransferDone, false))
  {
  }

  lemma {:induction false} NotFoundUntouched<T(!new)>(r: Rules<Event, T>, t: seq<Row<T>>, e: Event, id: nat)
    requires Find(t, id).None? && forall id': nat, v: T :: id' != id ==> r.touch(e, id', v) == v
    ensures Touched(r, t, e) == t
  {
    forall i | 0 <= i < |t|
      ensures t[i].id != id
    {
      NotFoundAt(t, |t|, id, i);
    }
  }

  lemma {:induction false} NotFoundAt<T>(t: seq<Row<T>>, k: nat, id: nat, i: nat)
    requires i < k <= |t| && FindIn(t, k, id).None?
    ensures t[i].id != id
    decreases k
  {
    if i < k - 1 {
      NotFoundAt(t, k - 1, id, i);
    }
  }

  lemma {:induction false} CountNothing(s: State)
    ensures s.counters.Plus(Zero) == s.counters
  {
  }

  /** A finish that raises leaves the monitor as it was. */
  lemma {:induction false} RaisingStep(s: State, e: Event)
    requires Raises(s, e)
    ensures Step(s, e) == s
  {
    CountNothing(s);
    match e
    case LookupFinish(id, _, _) =>
      LookupFinishStep(s, e);
      NotFoundUntouched(LookupRules(), s.lookups, e, id);
    case RetrieveFinish(id, _, _) =>
      RetrieveFinishStep(s, e);
      NotFoundUntouched(RetrieveRules(), s.retrieves, e, id);
    case StoreFinish(id, _, _) =>
      StoreFinishStep(s, e);
      NotFoundUntouched(StoreRules(), s.stores, e, id);
    case TransferFinish(id, _) =>
      TransferFinishStep(s, e);
      NotFoundUntouched(TransferRules(), s.transfers, e, id);
  }
}
