/** Requests of the statistics monitor over every run: when a finish is accepted, and how many are counted. */
module StatsRequests {
  import opened Text
  import opened Arithmetic
  import opened Requests
  import opened StatsModel
  import opened StatsRuns

  // ---- when a finish is accepted ----

  function EndsLookup(e: Event, id: nat): Option<bool> {
    if e.LookupFinish? && e.id == id then Some(true) else None
  }

  /** An end at clock reading zero is not seen: zero stands for a request in progress. */
  function EndsRetrieve(e: Event, id: nat): Option<bool> {
    if e.RetrieveFinish? && e.id == id && e.now != 0.0 then Some(true) else None
  }

  function EndsStore(e: Event, id: nat): Option<bool> {
    if e.StoreFinish? && e.id == id && e.now != 0.0 then Some(true) else None
  }

  /** The latest finish of a transfer counts, so that one at clock reading zero reopens it. */
  function EndsTransfer(e: Event, id: nat): Option<bool> {
    if e.TransferFinish? && e.id == id then Some(e.now != 0.0) else None
  }

  lemma {:induction false} EndsSettle(es: seq<Event>)
    ensures Settles(LookupRules(), EndsLookup, es)
    ensures Settles(RetrieveRules(), EndsRetrieve, es)
    ensures Settles(StoreRules(), EndsStore, es)
    ensures Settles(TransferRules(), EndsTransfer, es)
  {
    forall i | 0 <= i < |es|
      ensures SettlesAt(LookupRules(), EndsLookup, es[i])
      ensures SettlesAt(RetrieveRules(), EndsRetrieve, es[i])
      ensures SettlesAt(StoreRules(), EndsStore, es[i])
      ensures SettlesAt(TransferRules(), EndsTransfer, es[i])
    {
    }
  }

  /** Request `id` was never issued, or had ended at an earlier harvest. */
  ghost predicate Gone<T>(r: Rules<Event, T>, ends: (Event, nat) -> Option<bool>, es: seq<Event>, n: nat, id: nat)
    requires n <= |es|
  {
    id >= Issued(r, es, n) || EndedAtHarvest(r, ends, es, n, id)
  }

  lemma {:induction false} FoundUnlessGone<T(!new)>(r: Rules<Event, T>, ends: (Event, nat) -> Option<bool>, es: seq<Event>, n: nat, id: nat)
    requires n <= |es| && Settles(r, ends, es)
    ensures Find(TableAt(r, es, n), id).None? <==> Gone(r, ends, es, n, id)
  {
    if id < Issued(r, es, n) {
      ReportedIff(r, ends, es, n, id);
    } else {
      FoundIff(r, es, n, id);
      IssuedIff(r, es, n, id);
    }
  }

  /**
   In every run the membership assertion fails exactly for a request that was never issued or
   that had ended at an earlier snapshot: an unfinished request survives every clear.
   */
  lemma {:induction false} RaisesIff(limits: Thresholds, es: seq<Event>, n: nat)
    requires n < |es|
    ensures Raises(StateAt(limits, es, n), es[n])
            <==> match es[n]
                 case LookupFinish(id, _, _) => Gone(LookupRules(), EndsLookup, es, n, id)
                 case RetrieveFinish(id, _, _) => Gone(RetrieveRules(), EndsRetrieve, es, n, id)
                 case StoreFinish(id, _, _) => Gone(StoreRules(), EndsStore, es, n, id)
                 case TransferFinish(id, _) => Gone(TransferRules(), EndsTransfer, es, n, id)
                 case _ => false
  {
    TablesAt(limits, es, n);
    RaisesFrom(StateAt(limits, es, n), es, n);
  }

  lemma {:induction false} RaisesFrom(s: State, es: seq<Event>, n: nat)
    requires n < |es|
    requires s.lookups == TableAt(LookupRules(), es, n) && s.retrieves == TableAt(RetrieveRules(), es, n)
    requires s.stores == TableAt(StoreRules(), es, n) && s.transfers == TableAt(TransferRules(), es, n)
    ensures Raises(s, es[n])
            <==> match es[n]
                 case LookupFinish(id, _, _) => Gone(LookupRules(), EndsLookup, es, n, id)
                 case RetrieveFinish(id, _, _) => Gone(RetrieveRules(), EndsRetrieve, es, n, id)
                 case StoreFinish(id, _, _) => Gone(StoreRules(), EndsStore, es, n, id)
                 case TransferFinish(id, _) => Gone(TransferRules(), EndsTransfer, es, n, id)
                 case _ => false
  {
    EndsSettle(es);
    var id := IdOf(es[n]);
    FoundUnlessGone(LookupRules(), EndsLookup, es, n, id);
    FoundUnlessGone(RetrieveRules(), EndsRetrieve, es, n, id);
    FoundUnlessGone(StoreRules(), EndsStore, es, n, id);
    FoundUnlessGone(TransferRules(), EndsTransfer, es, n, id);
  }

  /** The two events finish the same request. */
  predicate SameFinish(e: Event, e': Event) {
    || (e.LookupFinish? && e'.LookupFinish? && e.id == e'.id)
    || (e.RetrieveFinish? && e'.RetrieveFinish? && e.id == e'.id)
    || (e.StoreFinish? && e'.StoreFinish? && e.id == e'.id)
    || (e.TransferFinish? && e'.TransferFinish? && e.id == e'.id)
  }

  /** The request that event `n` finishes, if it finishes one, has been issued. */
  predicate IssuedBefore(es: seq<Event>, n: nat)
    requires n < |es|
  {
    match es[n]
    case LookupFinish(id, _, _) => id < Issued(LookupRules(), es, n)
    case RetrieveFinish(id, _, _) => id < Issued(RetrieveRules(), es, n)
    case StoreFinish(id, _, _) => id < Issued(StoreRules(), es, n)
    case TransferFinish(id, _) => id < Issued(TransferRules(), es, n)
    case _ => true
  }

  lemma {:induction false} NotGone<T(!new)>(r: Rules<Event, T>, ends: (Event, nat) -> Option<bool>, es: seq<Event>, n: nat, id: nat)
    requires n <= |es| && id < Issued(r, es, n) && forall i | 0 <= i < n :: ends(es[i], id) != Some(true)
    ensures !Gone(r, ends, es, n, id)
  {
    forall j | 0 <= j < n
      ensures !Ended(r, ends, es, j, id)
    {
      EndedIff(r, ends, es, j, id);
    }
  }

  /** So the first finish of an issued request is always accepted. */
  lemma {:induction false} FirstFinishAccepted(limits: Thresholds, es: seq<Event>, n: nat)
    requires n < |es| && IssuedBefore(es, n) && forall i | 0 <= i < n :: !SameFinish(es[i], es[n])
    ensures !Raises(StateAt(limits, es, n), es[n])
  {
    RaisesIff(limits, es, n);
    match es[n]
    case LookupFinish(id, _, _) => NotGone(LookupRules(), EndsLookup, es, n, id);
    case RetrieveFinish(id, _, _) => NotGone(RetrieveRules(), EndsRetrieve, es, n, id);
    case StoreFinish(id, _, _) => NotGone(StoreRules(), EndsStore, es, n, id);
    case TransferFinish(id, _) => NotGone(TransferRules(), EndsTransfer, es, n, id);
    case _ =>
  }

  // ---- requests counted and ids issued ----

  ghost predicate Additively(field: Counters -> int) {
    field(Zero) == 0 && forall a: Counters, b: Counters :: field(Plus(a, b)) == field(a) + field(b)
  }

  function TotalTo(f: nat -> int, n: nat): int {
    if n == 0 then 0 else TotalTo(f, n - 1) + f(n - 1)
  }

  lemma {:induction false} FieldOfAmount(counted: nat -> Counters, field: Counters -> int, f: nat -> int, n: nat)
    requires Additively(field) && forall i: nat | i < n :: field(counted(i)) == f(i)
    ensures field(Amount(Plus, Zero, counted, n)) == TotalTo(f, n)
    decreases n
  {
    if n > 0 {
      FieldOfAmount(counted, field, f, n - 1);
    }
  }

  lemma {:induction false} IssuedIsTotal<T>(r: Rules<Event, T>, es: seq<Event>, f: nat -> int, n: nat)
    requires n <= |es| && forall i: nat | i < n :: f(i) == Bit(Opened(r, es[i]).Some?)
    ensures Issued(r, es, n) == TotalTo(f, n)
    decreases n
  {
    if n > 0 {
      IssuedIsTotal(r, es, f, n - 1);
    }
  }

  function Openings<T>(r: Rules<Event, T>, es: seq<Event>): nat -> int {
    (i: nat) => if i < |es| then Bit(Opened(r, es[i]).Some?) else 0
  }

  /** The field counts the events that open a request. */
  ghost predicate CountsOpenings<T>(limits: Thresholds, r: Rules<Event, T>, field: Counters -> int) {
    forall e: Event, named: Named :: field(Added(limits, e, named)) == Bit(Opened(r, e).Some?)
  }

  lemma {:induction false} CountedOpenings<T>(limits: Thresholds, es: seq<Event>, r: Rules<Event, T>, field: Counters -> int, n: nat)
    requires n <= |es| && Additively(field) && CountsOpenings(limits, r, field)
    ensures field(Amount(Plus, Zero, CountedIn(limits, es), n)) == Issued(r, es, n)
  {
    FieldOfAmount(CountedIn(limits, es), field, Openings(r, es), n);
    IssuedIsTotal(r, es, Openings(r, es), n);
  }

  function LookupRequestsOf(c: Counters): int {
    c.lookupRequests
  }

  function RetrieveRequestsOf(c: Counters): int {
    c.retrieveRequests
  }

  function StoreRequestsOf(c: Counters): int {
    c.storeRequests
  }

  function TransferRequestsOf(c: Counters): int {
    c.transferRequests
  }

  /** The counters of all snapshots among the first `n` events, and the pending ones. */
  function AllCounters(limits: Thresholds, es: seq<Event>, n: nat): Counters {
    Plus(Gathered(Plus, Zero, PendingCounters(limits, es), Snapshots(es), n), PendingCounters(limits, es)(n))
  }

  lemma {:induction false} RequestFields(limits: Thresholds)
    ensures Additively(LookupRequestsOf) && Additively(RetrieveRequestsOf)
    ensures Additively(StoreRequestsOf) && Additively(TransferRequestsOf)
    ensures CountsOpenings(limits, LookupRules(), LookupRequestsOf)
    ensures CountsOpenings(limits, RetrieveRules(), RetrieveRequestsOf)
    ensures CountsOpenings(limits, StoreRules(), StoreRequestsOf)
    ensures CountsOpenings(limits, TransferRules(), TransferRequestsOf)
  {
  }

  lemma {:induction false} FieldCounted<T>(limits: Thresholds, es: seq<Event>, r: Rules<Event, T>, field: Counters -> int, n: nat)
    requires n <= |es| && Additively(field) && CountsOpenings(limits, r, field)
    ensures field(AllCounters(limits, es, n)) == Issued(r, es, n)
  {
    CountersConserved(limits, es, n);
    CountedOpenings(limits, es, r, field, n);
  }

  /** In every run the request counters of all snapshots and the pending ones add up to the ids issued. */
  lemma {:induction false} RequestsCounted(limits: Thresholds, es: seq<Event>, n: nat)
    requires n <= |es|
    ensures LookupRequestsOf(AllCounters(limits, es, n)) == Issued(LookupRules(), es, n)
    ensures RetrieveRequestsOf(AllCounters(limits, es, n)) == Issued(RetrieveRules(), es, n)
    ensures StoreRequestsOf(AllCounters(limits, es, n)) == Issued(StoreRules(), es, n)
    ensures TransferRequestsOf(AllCounters(limits, es, n)) == Issued(TransferRules(), es, n)
  {
    RequestFields(limits);
    FieldCounted(limits, es, LookupRules(), LookupRequestsOf, n);
    FieldCounted(limits, es, RetrieveRules(), RetrieveRequestsOf, n);
    FieldCounted(limits, es, StoreRules(), StoreRequestsOf, n);
    FieldCounted(limits, es, TransferRules(), TransferRequestsOf, n);
  }
}
