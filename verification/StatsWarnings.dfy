/** The rate limit on warnings about slow retrievals, and the times of requests in a report. */
module StatsWarnings {
  import opened Text
  import opened Arithmetic
  import opened Requests
  import opened StatsModel
  import opened StatsRuns

  // ---- the limiter over every run ----

  /** The limiter after `n` steps and the warnings it let through. */
  function WarnRun(slow: nat -> bool, now: nat -> real, n: nat): (Limiter, seq<Warning>) {
    if n == 0 then (Limiter(0.0, 0), [])
    else
      var (limiter, warnings) := WarnRun(slow, now, n - 1);
      var (limiter', more) := Warn(limiter, slow(n - 1), now(n - 1));
      (limiter', warnings + more)
  }

  function SlowCount(slow: nat -> bool, n: nat): nat {
    if n == 0 then 0 else SlowCount(slow, n - 1) + Bit(slow(n - 1))
  }

  function SkippedIn(ws: seq<Warning>, k: nat): nat
    requires k <= |ws|
  {
    if k == 0 then 0 else SkippedIn(ws, k - 1) + ws[k - 1].skipped
  }

  lemma {:induction false} SkippedPrefix(ws: seq<Warning>, more: seq<Warning>, k: nat)
    requires k <= |ws|
    ensures SkippedIn(ws + more, k) == SkippedIn(ws, k)
  {
    if k > 0 {
      SkippedPrefix(ws, more, k - 1);
    }
  }

  /** Every slow retrieval is logged, or counted in the next warning, or still to be counted. */
  lemma {:induction false} SlowAccounted(slow: nat -> bool, now: nat -> real, n: nat)
    ensures var (limiter, ws) := WarnRun(slow, now, n);
            |ws| + SkippedIn(ws, |ws|) + limiter.skipped == SlowCount(slow, n)
  {
    if n > 0 {
      SlowAccounted(slow, now, n - 1);
      var (limiter, ws) := WarnRun(slow, now, n - 1);
      var (_, more) := Warn(limiter, slow(n - 1), now(n - 1));
      SkippedPrefix(ws, more, |ws|);
      assert ws + [] == ws;
    }
  }

  /** The time of the warning before place `i`, the epoch of the clock for the first. */
  function Previous(ws: seq<Warning>, i: nat): real
    requires i <= |ws|
  {
    if i == 0 then 0.0 else ws[i - 1].at
  }

  predicate Spaced(ws: seq<Warning>) {
    forall i | 0 <= i < |ws| :: ws[i].at - Previous(ws, i) > 10.0
  }

  /** Warnings are more than ten seconds apart, whatever the clock does in between. */
  lemma {:induction false} WarningsSpaced(slow: nat -> bool, now: nat -> real, n: nat)
    ensures var (limiter, ws) := WarnRun(slow, now, n);
            Spaced(ws) && limiter.last == Previous(ws, |ws|)
  {
    if n > 0 {
      WarningsSpaced(slow, now, n - 1);
    }
  }

  /** So `k` warnings span more than ten times `k` seconds. */
  lemma {:induction false} WarningsSpread(ws: seq<Warning>, i: nat, j: nat)
    requires Spaced(ws) && i < j < |ws|
    ensures ws[j].at - ws[i].at > 10.0 * (j - i) as real
    decreases j
  {
    assert ws[j].at - Previous(ws, j) > 10.0;
    if i < j - 1 {
      WarningsSpread(ws, i, j - 1);
    }
  }

  function SlowIn(limits: Thresholds, es: seq<Event>): nat -> bool {
    (i: nat) => i < |es| && Slow(limits, es[i], NamedBy(es, i))
  }

  function Clocks(es: seq<Event>): nat -> real {
    (i: nat) => if i < |es| then Clock(es[i]) else 0.0
  }

  /** A step passes its retrieval to the limiter. */
  ghost predicate Limits(step: (State, Event) -> State, s: State, e: Event, slow: bool) {
    step(s, e).limiter == Warn(s.limiter, slow, Clock(e)).0
  }

  lemma {:induction false} StepLimiter(s: State, e: Event)
    ensures Limits(Step, s, e, Slow(s.limits, e, NamedIn(s, IdOf(e))))
  {
  }

  lemma {:induction false} LimiterStep(limits: Thresholds, es: seq<Event>, i: nat)
    requires i < |es|
    ensures Limits(Step, RunAt(Step, Initial(limits), es, i), es[i], SlowIn(limits, es)(i))
  {
    var s := StateAt(limits, es, i);
    TablesAt(limits, es, i);
    LimitsAt(limits, es, i);
    NamedInTables(s, es, i);
    StepLimiter(s, es[i]);
  }

  ghost predicate LimitsIn(step: (State, Event) -> State, init: State, es: seq<Event>, slow: nat -> bool, i: nat)
    requires i < |es|
  {
    Limits(step, RunAt(step, init, es, i), es[i], slow(i))
  }

  lemma {:induction false} LimiterRuns(step: (State, Event) -> State, init: State, es: seq<Event>, slow: nat -> bool, n: nat)
    requires n <= |es| && init.limiter == Limiter(0.0, 0)
    requires forall i: nat | i < n :: LimitsIn(step, init, es, slow, i)
    ensures RunAt(step, init, es, n).limiter == WarnRun(slow, Clocks(es), n).0
    decreases n
  {
    if n > 0 {
      LimiterRuns(step, init, es, slow, n - 1);
      assert LimitsIn(step, init, es, slow, n - 1);
    }
  }

  /** The monitor's limiter is this one. */
  lemma {:induction false} LimiterAt(limits: Thresholds, es: seq<Event>, n: nat)
    requires n <= |es|
    ensures StateAt(limits, es, n).limiter == WarnRun(SlowIn(limits, es), Clocks(es), n).0
  {
    forall i: nat | i < n
      ensures LimitsIn(Step, Initial(limits), es, SlowIn(limits, es), i)
    {
      LimiterStep(limits, es, i);
    }
    LimiterRuns(Step, Initial(limits), es, SlowIn(limits, es), n);
  }

  // ---- times of requests in progress ----

  lemma {:induction false} NonZeroPrefix<T>(t: seq<Row<T>>, u: seq<Row<T>>, k: nat, f: T -> real)
    requires k <= |t|
    ensures NonZeroIn(t + u, k, f) == NonZeroIn(t, k, f)
    decreases k
  {
    if k > 0 {
      NonZeroPrefix(t, u, k - 1, f);
    }
  }

  lemma {:induction false} NonZeroIf<T>(t: seq<Row<T>>, c: bool, row: Row<T>, f: T -> real)
    ensures NonZero(t + If(c, row), f) == NonZero(t, f) + If(c && f(row.stats) != 0.0, f(row.stats))
  {
    NonZeroPrefix(t, If(c, row), |t|, f);
  }

  /** How many of the first `k` rows have a non-zero value and are done, or are not. */
  function NonZeroCount<T>(t: seq<Row<T>>, k: nat, done: T -> bool, want: bool, f: T -> real): nat
    requires k <= |t|
  {
    if k == 0 then 0
    else NonZeroCount(t, k - 1, done, want, f) + Bit(done(t[k - 1].stats) == want && f(t[k - 1].stats) != 0.0)
  }

  lemma {:induction false} NonZeroSelected<T>(t: seq<Row<T>>, k: nat, done: T -> bool, want: bool, f: T -> real)
    requires k <= |t|
    ensures |NonZero(SelectIn(t, k, done, want), f)| == NonZeroCount(t, k, done, want, f)
    decreases k
  {
    if k > 0 {
      NonZeroSelected(t, k - 1, done, want, f);
      NonZeroIf(SelectIn(t, k - 1, done, want), done(t[k - 1].stats) == want, t[k - 1], f);
    }
  }

  lemma {:induction false} NonZeroAll<T>(t: seq<Row<T>>, k: nat, done: T -> bool, f: T -> real)
    requires k <= |t|
    ensures |NonZeroIn(t, k, f)| == NonZeroCount(t, k, done, true, f) + NonZeroCount(t, k, done, false, f)
    decreases k
  {
    if k > 0 {
      NonZeroAll(t, k - 1, done, f);
    }
  }

  lemma {:induction false} NonZeroSplit<T>(t: seq<Row<T>>, k: nat, done: T -> bool, f: T -> real)
    requires k <= |t|
    ensures |NonZeroIn(t, k, f)| == |NonZero(SelectIn(t, k, done, true), f)| + |NonZero(SelectIn(t, k, done, false), f)|
  {
    NonZeroAll(t, k, done, f);
    NonZeroSelected(t, k, done, true, f);
    NonZeroSelected(t, k, done, false, f);
  }

  lemma {:induction false} NonZeroDone<T>(t: seq<Row<T>>, k: nat, done: T -> bool, f: T -> real)
    requires k <= |t| && forall i | 0 <= i < k :: !done(t[i].stats) ==> f(t[i].stats) == 0.0
    ensures NonZeroIn(t, k, f) == NonZero(SelectIn(t, k, done, true), f)
    decreases k
  {
    if k > 0 {
      NonZeroDone(t, k - 1, done, f);
      NonZeroIf(SelectIn(t, k - 1, done, true), done(t[k - 1].stats) == true, t[k - 1], f);
    }
  }

  lemma {:induction false} SomeNonZero<T>(t: seq<Row<T>>, k: nat, done: T -> bool, f: T -> real, i: nat)
    requires i < k <= |t| && !done(t[i].stats) && f(t[i].stats) != 0.0
    ensures |NonZero(SelectIn(t, k, done, false), f)| > 0
    decreases k
  {
    NonZeroIf(SelectIn(t, k - 1, done, false), done(t[k - 1].stats) == false, t[k - 1], f);
    if i < k - 1 {
      SomeNonZero(t, k - 1, done, f, i);
    }
  }

  lemma {:induction false} OfFinished<T>(t: seq<Row<T>>, done: T -> bool, f: T -> real)
    requires forall i | 0 <= i < |t| :: !done(t[i].stats) ==> f(t[i].stats) == 0.0
    ensures NonZero(t, f) == NonZero(Select(t, done, true), f)
  {
    NonZeroDone(t, |t|, done, f);
  }

  predicate EndNeedsFinish(v: Lookup) {
    v.end != 0.0 ==> v.finished
  }

  lemma {:induction false} LookupsEndFinished(es: seq<Event>)
    ensures Kept(LookupRules(), es, EndNeedsFinish)
  {
    forall i | 0 <= i < |es|
      ensures KeptAt(LookupRules(), es, i, EndNeedsFinish)
    {
    }
  }

  /** Unlike the other kinds, a lookup has a flag of its own, which its end time never precedes. */
  lemma {:induction false} LookupTimes(es: seq<Event>, n: nat)
    requires n <= |es|
    ensures var t := TableAt(LookupRules(), es, n);
            NonZero(t, LookupTime) == NonZero(Select(t, LookupDone, true), LookupTime)
  {
    var t := TableAt(LookupRules(), es, n);
    LookupsEndFinished(es);
    forall i | 0 <= i < |t|
      ensures EndNeedsFinish(t[i].stats)
    {
      InTableIff(LookupRules(), es, n, t[i]);
      LifeKeeps(LookupRules(), es, n, t[i].id, EndNeedsFinish);
    }
    OfFinished(t, LookupDone, LookupTime);
  }

  /**
   In every run the times and speeds that a snapshot reports are those of the requests it
   takes out of the tables, so that each request's are in one report only.
   */
  lemma {:induction false} TimesOfFinished(limits: Thresholds, es: seq<Event>, n: nat)
    requires n < |es| && es[n].Snapshot?
    ensures var r := ReportOf(StateAt(limits, es, n));
            && r.timesToLookup == NonZero(HarvestAt(LookupRules(), es, n), LookupTime)
            && r.timesToRetrieve == NonZero(HarvestAt(RetrieveRules(), es, n), RetrieveTime)
            && r.retrieveSpeeds == NonZero(HarvestAt(RetrieveRules(), es, n), RetrieveSpeed)
            && r.timesToStore == NonZero(HarvestAt(StoreRules(), es, n), StoreTime)
            && r.storeSpeeds == NonZero(HarvestAt(StoreRules(), es, n), StoreSpeed)
            && r.transferTimes == NonZero(HarvestAt(TransferRules(), es, n), TransferTime)
            && r.transferSpeeds == NonZero(HarvestAt(TransferRules(), es, n), TransferSpeed)
  {
    TablesAt(limits, es, n);
    LookupTimes(es, n);
    var s := StateAt(limits, es, n);
    OfFinished(s.retrieves, RetrieveDone, RetrieveTime);
    OfFinished(s.retrieves, RetrieveDone, RetrieveSpeed);
    OfFinished(s.stores, StoreDone, StoreTime);
    OfFinished(s.stores, StoreDone, StoreSpeed);
    OfFinished(s.transfers, TransferDone, TransferTime);
    OfFinished(s.transfers, TransferDone, TransferSpeed);
  }

  /** No request in progress has a time of this kind. */
  predicate NoneInProgress<T>(t: seq<Row<T>>, done: T -> bool, f: T -> real) {
    forall i | 0 <= i < |t| :: !done(t[i].stats) ==> f(t[i].stats) == 0.0
  }

  lemma {:induction false} OnlyFinishedIff<T>(t: seq<Row<T>>, done: T -> bool, f: T -> real)
    ensures NonZero(t, f) == NonZero(Select(t, done, true), f)
            <==> NoneInProgress(t, done, f)
  {
    NonZeroSplit(t, |t|, done, f);
    if i :| 0 <= i < |t| && !done(t[i].stats) && f(t[i].stats) != 0.0 {
      SomeNonZero(t, |t|, done, f, i);
    } else {
      NonZeroDone(t, |t|, done, f);
    }
  }

  /**
   A report lists the profiled times of the finished requests alone exactly when no request
   in progress has any: the others are listed now and again in later reports.
   */
  lemma {:induction false} ProfileTimesOfFinishedIff(s: State)
    ensures var r, done := ReportOf(s), Select(s.retrieves, RetrieveDone, true);
            && (r.retrieveProcessTimes == NonZero(done, RetrieveProcessTime) <==> NoneInProgress(s.retrieves, RetrieveDone, RetrieveProcessTime))
            && (r.retrieveBroadcastTimes == NonZero(done, RetrieveBroadcastTime) <==> NoneInProgress(s.retrieves, RetrieveDone, RetrieveBroadcastTime))
            && (r.retrieveToGpuTimes == NonZero(done, RetrieveToGpuTime) <==> NoneInProgress(s.retrieves, RetrieveDone, RetrieveToGpuTime))
            && (r.blockingGetTimes == NonZero(done, RetrieveBlockingTime) <==> NoneInProgress(s.retrieves, RetrieveDone, RetrieveBlockingTime))
            && (r.connectorGetTimes == NonZero(done, RetrieveConnectorTime) <==> NoneInProgress(s.retrieves, RetrieveDone, RetrieveConnectorTime))
    ensures var r, done := ReportOf(s), Select(s.stores, StoreDone, true);
            && (r.storeProcessTimes == NonZero(done, StoreProcessTime) <==> NoneInProgress(s.stores, StoreDone, StoreProcessTime))
            && (r.storeFromGpuTimes == NonZero(done, StoreFromGpuTime) <==> NoneInProgress(s.stores, StoreDone, StoreFromGpuTime))
            && (r.storePutTimes == NonZero(done, StorePutTime) <==> NoneInProgress(s.stores, StoreDone, StorePutTime))
  {
    OnlyFinishedIff(s.retrieves, RetrieveDone, RetrieveProcessTime);
    OnlyFinishedIff(s.retrieves, RetrieveDone, RetrieveBroadcastTime);
    OnlyFinishedIff(s.retrieves, RetrieveDone, RetrieveToGpuTime);
    OnlyFinishedIff(s.retrieves, RetrieveDone, RetrieveBlockingTime);
    OnlyFinishedIff(s.retrieves, RetrieveDone, RetrieveConnectorTime);
    OnlyFinishedIff(s.stores, StoreDone, StoreProcessTime);
    OnlyFinishedIff(s.stores, StoreDone, StoreFromGpuTime);
    OnlyFinishedIff(s.stores, StoreDone, StorePutTime);
  }

  // ---- three short runs ----

  lemma {:induction false} FirstState(limits: Thresholds, es: seq<Event>)
    requires es != []
    ensures StateAt(limits, es, 1) == Step(Initial(limits), es[0])
  {
    StateNext(limits, es, 0);
  }

  lemma {:induction false} SecondState(limits: Thresholds, es: seq<Event>, s: State)
    requires |es| >= 2 && s == StateAt(limits, es, 1)
    ensures StateAt(limits, es, 2) == Step(s, es[1])
  {
    StateNext(limits, es, 1);
  }

  lemma {:induction false} ThirdState(limits: Thresholds, es: seq<Event>, s: State)
    requires |es| >= 3 && s == StateAt(limits, es, 2)
    ensures StateAt(limits, es, 3) == Step(s, es[2])
  {
    StateNext(limits, es, 2);
  }

  /** The first three steps of a run. */
  lemma {:induction false} ThreeStates(limits: Thresholds, es: seq<Event>) returns (s1: State, s2: State, s3: State)
    requires |es| >= 3
    ensures s1 == StateAt(limits, es, 1) == Step(Initial(limits), es[0])
    ensures s2 == StateAt(limits, es, 2) == Step(s1, es[1]) && s3 == StateAt(limits, es, 3) == Step(s2, es[2])
  {
    s1, s2, s3 := StateAt(limits, es, 1), StateAt(limits, es, 2), StateAt(limits, es, 3);
    FirstState(limits, es);
    SecondState(limits, es, s1);
    ThirdState(limits, es, s2);
  }

  lemma {:induction false} FirstRetrieve(limits: Thresholds, tokens: int, now: real)
    ensures var s := Step(Initial(limits), RetrieveStart(tokens, now));
            s.retrieves == [Row(0, Retrieve(tokens, 0, 0, now, 0.0, 0.0, 0.0, 0.0, 0.0, 0.0))] && s.counters.hitTokens == 0
  {
  }

  lemma {:induction false} Profiled(s: State, v: Retrieve, seconds: real)
    requires s.retrieves == [Row(0, v)]
    ensures Step(s, RetrieveProfile(0, seconds, 0.0, 0.0, 0.0, 0.0)).retrieves == [Row(0, v.(processTime := v.processTime + seconds))]
  {
    var e := RetrieveProfile(0, seconds, 0.0, 0.0, 0.0, 0.0);
    assert Step(s, e).retrieves == TableStep(RetrieveRules(), s.retrieves, s.nextRetrieve, e);
    ProfiledTable(s.retrieves, s.nextRetrieve, v, seconds);
  }

  lemma {:induction false} ProfiledTable(t: seq<Row<Retrieve>>, next: nat, v: Retrieve, seconds: real)
    requires t == [Row(0, v)]
    ensures TableStep(RetrieveRules(), t, next, RetrieveProfile(0, seconds, 0.0, 0.0, 0.0, 0.0))
            == [Row(0, v.(processTime := v.processTime + seconds))]
  {
    var e := RetrieveProfile(0, seconds, 0.0, 0.0, 0.0, 0.0);
    assert TouchRetrieve(e, 0, v) == v.(processTime := v.processTime + seconds);
  }

  lemma {:induction false} UnfinishedStays(s: State, v: Retrieve)
    requires s.retrieves == [Row(0, v)] && v.end == 0.0 && v.processTime != 0.0
    ensures ReportOf(s).retrieveProcessTimes == [v.processTime] && Step(s, Snapshot).retrieves == s.retrieves
  {
    var t := s.retrieves;
    assert NonZeroIn(t, 0, RetrieveProcessTime) == [];
    assert SelectIn(t, 0, RetrieveDone, false) == [];
  }

  /** A time of processing, recorded once, is in both of two reports. */
  lemma {:induction false} ProcessTimeRepeated(limits: Thresholds, tokens: int, start: real, seconds: real)
    requires seconds != 0.0
    ensures var es := [RetrieveStart(tokens, start), RetrieveProfile(0, seconds, 0.0, 0.0, 0.0, 0.0), Snapshot, Snapshot];
            ReportOf(StateAt(limits, es, 2)).retrieveProcessTimes == [seconds] == ReportOf(StateAt(limits, es, 3)).retrieveProcessTimes
  {
    var es := [RetrieveStart(tokens, start), RetrieveProfile(0, seconds, 0.0, 0.0, 0.0, 0.0), Snapshot, Snapshot];
    var s1, s2, s3 := ThreeStates(limits, es);
    FirstRetrieve(limits, tokens, start);
    Profiled(s1, s1.retrieves[0].stats, seconds);
    UnfinishedStays(s2, s2.retrieves[0].stats);
    UnfinishedStays(s3, s2.retrieves[0].stats);
  }

  lemma {:induction false} EndAtZero(s: State, v: Retrieve, hits: int)
    requires s.retrieves == [Row(0, v)] && v.end == 0.0
    ensures var s' := Step(s, RetrieveFinish(0, hits, 0.0));
            && s'.counters.hitTokens == s.counters.hitTokens + hits
            && Select(s'.retrieves, RetrieveDone, true) == [] && Step(s', Snapshot).retrieves == s'.retrieves != []
  {
    EndAtZeroTable(s.retrieves, v, hits);
    assert FindIn(s.retrieves, 1, 0) == Some(v);
  }

  lemma {:induction false} EndAtZeroTable(t: seq<Row<Retrieve>>, v: Retrieve, hits: int)
    requires t == [Row(0, v)] && v.end == 0.0
    ensures var t' := Touched(RetrieveRules(), t, RetrieveFinish(0, hits, 0.0));
            Select(t', RetrieveDone, true) == [] && Select(t', RetrieveDone, false) == t'
  {
    var t' := Touched(RetrieveRules(), t, RetrieveFinish(0, hits, 0.0));
    assert SelectIn(t', 0, RetrieveDone, true) == [] && SelectIn(t', 0, RetrieveDone, false) == [];
  }

  /** A retrieval that ends at clock reading zero has its hits counted and yet stays in progress. */
  lemma {:induction false} EndAtZeroUnseen(limits: Thresholds, tokens: int, start: real, hits: int)
    ensures var es := [RetrieveStart(tokens, start), RetrieveFinish(0, hits, 0.0), Snapshot, Snapshot];
            && ReportOf(StateAt(limits, es, 2)).counters.hitTokens == hits
            && HarvestAt(RetrieveRules(), es, 2) == [] && StateAt(limits, es, 3).retrieves != []
  {
    var es := [RetrieveStart(tokens, start), RetrieveFinish(0, hits, 0.0), Snapshot, Snapshot];
    EndAtZeroStates(limits, tokens, start, hits, es);
    TablesAt(limits, es, 2);
    ReportLists(StateAt(limits, es, 2));
  }

  lemma {:induction false} EndAtZeroStates(limits: Thresholds, tokens: int, start: real, hits: int, es: seq<Event>)
    requires es == [RetrieveStart(tokens, start), RetrieveFinish(0, hits, 0.0), Snapshot, Snapshot]
    ensures var s := StateAt(limits, es, 2);
            && s.counters.hitTokens == hits && Select(s.retrieves, RetrieveDone, true) == []
            && StateAt(limits, es, 3).retrieves != []
  {
    var s1, s2, s3 := ThreeStates(limits, es);
    FirstRetrieve(limits, tokens, start);
    EndAtZero(s1, s1.retrieves[0].stats, hits);
  }

  lemma {:induction false} FirstLookup(limits: Thresholds, tokens: int, now: real)
    ensures var s := Step(Initial(limits), LookupStart(tokens, now));
            s.lookups == [Row(0, Lookup(tokens, 0, false, now, 0.0))] && s.counters.lookupHits == 0
  {
  }

  lemma {:induction false} FinishCounts(s: State, v: Lookup, hits: int, now: real)
    requires s.lookups == [Row(0, v)]
    ensures var s' := Step(s, LookupFinish(0, hits, now));
            && s'.counters.lookupHits == s.counters.lookupHits + hits
            && s'.lookups == [Row(0, v.(hits := hits, finished := true, end := EndTime(v.end, now)))]
  {
    assert FindIn(s.lookups, 1, 0) == Some(v);
  }

  lemma {:induction false} OneFinished(t: seq<Row<Lookup>>, v: Lookup)
    requires t == [Row(0, v)] && v.finished
    ensures Select(t, LookupDone, true) == t && Sum(t, LookupHits) == v.hits
  {
    assert SelectIn(t, 0, LookupDone, true) == [] && SumIn(t, 0, LookupHits) == 0;
  }

  /** Finishing a lookup twice within one interval counts its hits twice. */
  lemma {:induction false} FinishedTwice(limits: Thresholds, tokens: int, start: real, hits: int, now: real)
    ensures var es := [LookupStart(tokens, start), LookupFinish(0, hits, now), LookupFinish(0, hits, now), Snapshot];
            && ReportOf(StateAt(limits, es, 3)).counters.lookupHits == 2 * hits
            && Sum(HarvestAt(LookupRules(), es, 3), LookupHits) == hits
  {
    var es := [LookupStart(tokens, start), LookupFinish(0, hits, now), LookupFinish(0, hits, now), Snapshot];
    FinishedTwiceStates(limits, tokens, start, hits, now, es);
    TablesAt(limits, es, 3);
    ReportLists(StateAt(limits, es, 3));
  }

  lemma {:induction false} FinishedTwiceStates(limits: Thresholds, tokens: int, start: real, hits: int, now: real, es: seq<Event>)
    requires es == [LookupStart(tokens, start), LookupFinish(0, hits, now), LookupFinish(0, hits, now), Snapshot]
    ensures var s := StateAt(limits, es, 3); s.counters.lookupHits == 2 * hits && Sum(Select(s.lookups, LookupDone, true), LookupHits) == hits
  {
    var s1, s2, s3 := ThreeStates(limits, es);
    FirstLookup(limits, tokens, start);
    FinishCounts(s1, s1.lookups[0].stats, hits, now);
    FinishCounts(s2, s2.lookups[0].stats, hits, now);
    OneFinished(s3.lookups, s3.lookups[0].stats);
  }

  lemma {:induction false} FirstStore(limits: Thresholds, tokens: int, now: real)
    ensures var s := Step(Initial(limits), StoreStart(tokens, now));
            s.stores == [Row(0, Store(tokens, now, 0.0, 0.0, 0.0, 0.0))] && s.counters.storedTokens == tokens
  {
  }

  lemma {:induction false} CorrectionUncounted(s: State, v: Store, stored: int, now: real)
    requires s.stores == [Row(0, v)] && v.end == 0.0 && stored >= 0
    ensures var s' := Step(s, StoreFinish(0, stored, now));
            s'.counters.storedTokens == s.counters.storedTokens && s'.stores == [Row(0, v.(tokens := stored, end := now))]
  {
    var e := StoreFinish(0, stored, now);
    assert TouchStore(e, 0, v) == v.(tokens := stored, end := now);
  }

  lemma {:induction false} OneStored(t: seq<Row<Store>>, v: Store)
    requires t == [Row(0, v)] && v.end != 0.0
    ensures Select(t, StoreDone, true) == t
  {
    assert SelectIn(t, 0, StoreDone, true) == [];
  }

  /** A store's tokens are counted as asked for, and reported as corrected. */
  lemma {:induction false} StoredCorrected(limits: Thresholds, tokens: int, start: real, stored: int, now: real)
    requires stored >= 0 && now != 0.0
    ensures var es := [StoreStart(tokens, start), StoreFinish(0, stored, now), Snapshot, Snapshot];
            && ReportOf(StateAt(limits, es, 2)).counters.storedTokens == tokens
            && HarvestAt(StoreRules(), es, 2) == [Row(0, Store(stored, start, now, 0.0, 0.0, 0.0))]
  {
    var es := [StoreStart(tokens, start), StoreFinish(0, stored, now), Snapshot, Snapshot];
    StoredCorrectedStates(limits, tokens, start, stored, now, es);
    TablesAt(limits, es, 2);
    ReportLists(StateAt(limits, es, 2));
  }

  lemma {:induction false} StoredCorrectedStates(limits: Thresholds, tokens: int, start: real, stored: int, now: real, es: seq<Event>)
    requires stored >= 0 && now != 0.0 && es == [StoreStart(tokens, start), StoreFinish(0, stored, now), Snapshot, Snapshot]
    ensures var s := StateAt(limits, es, 2);
            s.counters.storedTokens == tokens && Select(s.stores, StoreDone, true) == [Row(0, Store(stored, start, now, 0.0, 0.0, 0.0))]
  {
    var s1, s2, s3 := ThreeStates(limits, es);
    FirstStore(limits, tokens, start);
    CorrectionUncounted(s1, s1.stores[0].stats, stored, now);
    OneStored(s2.stores, s2.stores[0].stats);
  }
}
