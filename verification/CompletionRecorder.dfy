/**
 The completion recorder: completions are handed to a stream's host callback as raw pointers,
 pushed into a shared buffer when the callback fires, and drained by the consumer.
 */
module CompletionRecorder {
  import opened Counting

  /** A recorded completion; the ticket counts the calls that recorded one. */
  datatype Completion = Completion(ticket: nat, stream: int, kind: string, payload: string)

  // ---- the buffer ----

  class Recorder {
    var buffer: seq<Completion>

    constructor ()
      ensures buffer == []
    {
      buffer := [];
    }

    method Push(c: Completion)
      modifies this
      ensures buffer == old(buffer) + [c]
    {
      buffer := buffer + [c];
    }

    /** Swap the buffer with an empty one. */
    method Drain() returns (result: seq<Completion>)
      modifies this
      ensures result == old(buffer) && buffer == []
    {
      result := [];
      result, buffer := buffer, result;
    }

    /** Hand the buffered completions to the consumer as pairs of kind and payload. */
    method DrainRecorded() returns (pairs: seq<(string, string)>)
      modifies this
      ensures buffer == [] && pairs == Pairs(old(buffer), |old(buffer)|)
    {
      var completions := Drain();
      pairs := [];
      for i := 0 to |completions|
        invariant pairs == Pairs(completions, i) && buffer == []
      {
        pairs := pairs + [(completions[i].kind, completions[i].payload)];
      }
    }
  }

  function Pairs(cs: seq<Completion>, n: nat): seq<(string, string)>
    requires n <= |cs|
  {
    if n == 0 then [] else Pairs(cs, n - 1) + [(cs[n - 1].kind, cs[n - 1].payload)]
  }

  // ---- runs ----

  /** Recording a completion, with the outcome of the launch; the callback of the `i`-th one in flight; a drain. */
  datatype Event = Record(stream: int, kind: string, payload: string, launched: bool) | Fire(i: nat) | Drain

  datatype World = World(
    next: nat, inFlight: seq<Completion>, buffer: seq<Completion>, drained: seq<Completion>, freed: seq<Completion>)

  function RemoveAt(s: seq<Completion>, i: nat): seq<Completion>
    requires i < |s|
  {
    s[..i] + s[i + 1..]
  }

  function Step(w: World, e: Event): World {
    match e
    case Record(stream, kind, payload, launched) =>
      var c := Completion(w.next, stream, kind, payload);
      if launched then w.(next := w.next + 1, inFlight := w.inFlight + [c])
      else w.(next := w.next + 1, freed := w.freed + [c])
    case Fire(i) =>
      if i < |w.inFlight| then w.(inFlight := RemoveAt(w.inFlight, i), buffer := w.buffer + [w.inFlight[i]]) else w
    case Drain => w.(buffer := [], drained := w.drained + w.buffer)
  }

  const Start := World(0, [], [], [], [])

  function WorldAt(es: seq<Event>, n: nat): World
    requires n <= |es|
  {
    if n == 0 then Start else Step(WorldAt(es, n - 1), es[n - 1])
  }

  /** How many completions the first `n` events record. */
  function Tickets(es: seq<Event>, n: nat): nat
    requires n <= |es|
  {
    if n == 0 then 0 else Tickets(es, n - 1) + if es[n - 1].Record? then 1 else 0
  }

  function Recorded(e: Event, ticket: nat): seq<Completion> {
    if e.Record? then [Completion(ticket, e.stream, e.kind, e.payload)] else []
  }

  /** Everything recorded, in order. */
  function AllRecorded(es: seq<Event>, n: nat): seq<Completion>
    requires n <= |es|
  {
    if n == 0 then [] else AllRecorded(es, n - 1) + Recorded(es[n - 1], Tickets(es, n - 1))
  }

  /** In how many places, and how often, a completion is. */
  ghost function Places(w: World, x: Completion): nat {
    Times(w.inFlight, x) + Times(w.buffer, x) + Times(w.drained, x) + Times(w.freed, x)
  }

  lemma {:induction false} RemoveTimes(s: seq<Completion>, i: nat, x: Completion)
    requires i < |s|
    ensures Times(RemoveAt(s, i), x) + (if s[i] == x then 1 else 0) == Times(s, x)
  {
    assert s == s[..i] + ([s[i]] + s[i + 1..]);
    TimesAppend(s[..i], [s[i]] + s[i + 1..], x);
    TimesAppend([s[i]], s[i + 1..], x);
    TimesAppend(s[..i], s[i + 1..], x);
    TimesOne(s[i], x);
  }

  lemma {:induction false} PlacesStep(w: World, e: Event, x: Completion)
    ensures Places(Step(w, e), x) == Places(w, x) + Times(Recorded(e, w.next), x)
  {
    match e
    case Record(_, _, _, launched) =>
      if launched {
        TimesAppend(w.inFlight, Recorded(e, w.next), x);
      } else {
        TimesAppend(w.freed, Recorded(e, w.next), x);
      }
    case Fire(i) =>
      if i < |w.inFlight| {
        RemoveTimes(w.inFlight, i, x);
        TimesAppend(w.buffer, [w.inFlight[i]], x);
        TimesOne(w.inFlight[i], x);
      }
    case Drain =>
      TimesAppend(w.drained, w.buffer, x);
  }

  lemma {:induction false} TicketsAt(es: seq<Event>, n: nat)
    requires n <= |es|
    ensures WorldAt(es, n).next == Tickets(es, n)
  {
    if n > 0 {
      TicketsAt(es, n - 1);
    }
  }

  ghost predicate Accounted(w: World, recorded: seq<Completion>, x: Completion) {
    Places(w, x) == Times(recorded, x)
  }

  lemma {:induction false} AccountedStep(w: World, e: Event, recorded: seq<Completion>, x: Completion)
    requires Accounted(w, recorded, x)
    ensures Accounted(Step(w, e), recorded + Recorded(e, w.next), x)
  {
    PlacesStep(w, e, x);
    TimesAppend(recorded, Recorded(e, w.next), x);
  }

  lemma {:induction false} PlacesRecorded(es: seq<Event>, n: nat, x: Completion)
    requires n <= |es|
    ensures Accounted(WorldAt(es, n), AllRecorded(es, n), x)
    decreases n
  {
    if n == 0 {
      NothingRecorded(es, x);
    } else {
      PlacesRecorded(es, n - 1, x);
      NextRecorded(es, n, x);
    }
  }

  lemma {:induction false} NothingRecorded(es: seq<Event>, x: Completion)
    ensures Accounted(WorldAt(es, 0), AllRecorded(es, 0), x)
  {
  }

  lemma {:induction false} NextRecorded(es: seq<Event>, n: nat, x: Completion)
    requires 0 < n <= |es| && Accounted(WorldAt(es, n - 1), AllRecorded(es, n - 1), x)
    ensures Accounted(WorldAt(es, n), AllRecorded(es, n), x)
  {
    TicketsAt(es, n - 1);
    AccountedStep(WorldAt(es, n - 1), es[n - 1], AllRecorded(es, n - 1), x);
  }

  lemma {:induction false} RecordedOnce(es: seq<Event>, n: nat, x: Completion)
    requires n <= |es|
    ensures Times(AllRecorded(es, n), x) <= 1 && (Times(AllRecorded(es, n), x) == 1 ==> x.ticket < Tickets(es, n))
    decreases n
  {
    if n > 0 {
      RecordedOnce(es, n - 1, x);
      var more := Recorded(es[n - 1], Tickets(es, n - 1));
      TimesAppend(AllRecorded(es, n - 1), more, x);
      if more != [] {
        TimesOne(more[0], x);
      }
    }
  }

  /**
   In every run a completion that was recorded is in exactly one place, in flight, buffered,
   drained or freed after a failed launch, and there once; nothing else is anywhere.
   */
  lemma {:induction false} OnePlace(es: seq<Event>, n: nat, x: Completion)
    requires n <= |es|
    ensures Places(WorldAt(es, n), x) == if x in AllRecorded(es, n) then 1 else 0
  {
    PlacesRecorded(es, n, x);
    RecordedOnce(es, n, x);
    TimesIff(AllRecorded(es, n), |AllRecorded(es, n)|, x);
  }

  // ---- the order of a stream ----

  /** The completions of one stream among the first `n`. */
  function OfStream(s: seq<Completion>, n: nat, stream: int): seq<Completion>
    requires n <= |s|
  {
    if n == 0 then [] else OfStream(s, n - 1, stream) + if s[n - 1].stream == stream then [s[n - 1]] else []
  }

  function All(s: seq<Completion>, stream: int): seq<Completion> {
    OfStream(s, |s|, stream)
  }

  lemma {:induction false} OfStreamPrefix(s: seq<Completion>, t: seq<Completion>, n: nat, stream: int)
    requires n <= |s|
    ensures OfStream(s + t, n, stream) == OfStream(s, n, stream)
    decreases n
  {
    if n > 0 {
      OfStreamPrefix(s, t, n - 1, stream);
    }
  }

  lemma {:induction false} OfStreamSuffix(s: seq<Completion>, t: seq<Completion>, n: nat, stream: int)
    requires n <= |t|
    ensures OfStream(s + t, |s| + n, stream) == All(s, stream) + OfStream(t, n, stream)
    decreases n
  {
    if n == 0 {
      OfStreamPrefix(s, t, |s|, stream);
    } else {
      OfStreamSuffix(s, t, n - 1, stream);
    }
  }

  lemma {:induction false} AllConcat(s: seq<Completion>, t: seq<Completion>, stream: int)
    ensures All(s + t, stream) == All(s, stream) + All(t, stream)
  {
    OfStreamSuffix(s, t, |t|, stream);
  }

  lemma {:induction false} AllOne(c: Completion, stream: int)
    ensures All([c], stream) == if c.stream == stream then [c] else []
  {
    assert OfStream([c], 0, stream) == [];
  }

  /** The callback fires for the completion that its stream has had in flight for longest. */
  predicate InOrder(w: World, e: Event) {
    e.Fire? && e.i < |w.inFlight| ==> forall j | 0 <= j < e.i :: w.inFlight[j].stream != w.inFlight[e.i].stream
  }

  /** Every callback among the first `n` events fires in the order of its stream. */
  predicate FiresInOrder(es: seq<Event>, n: nat)
    requires n <= |es|
  {
    n > 0 ==> FiresInOrder(es, n - 1) && InOrder(WorldAt(es, n - 1), es[n - 1])
  }

  function Launched(e: Event, ticket: nat): seq<Completion> {
    if e.Record? && e.launched then Recorded(e, ticket) else []
  }

  /** Everything launched on its stream, in order. */
  function AllLaunched(es: seq<Event>, n: nat): seq<Completion>
    requires n <= |es|
  {
    if n == 0 then [] else AllLaunched(es, n - 1) + Launched(es[n - 1], Tickets(es, n - 1))
  }

  /** What has come out, what waits in the buffer and what is in flight, of one stream. */
  function Line(w: World, stream: int): seq<Completion> {
    All(w.drained, stream) + All(w.buffer, stream) + All(w.inFlight, stream)
  }

  lemma {:induction false} NoneOfStream(s: seq<Completion>, n: nat, stream: int)
    requires n <= |s| && forall j | 0 <= j < n :: s[j].stream != stream
    ensures OfStream(s, n, stream) == []
    decreases n
  {
    if n > 0 {
      NoneOfStream(s, n - 1, stream);
    }
  }

  /** Taking the first of its stream out of the line leaves the rest in order. */
  lemma {:induction false} TakeFirst(s: seq<Completion>, i: nat, stream: int)
    requires i < |s| && forall j | 0 <= j < i :: s[j].stream != s[i].stream
    ensures All(s, stream) == All([s[i]], stream) + All(RemoveAt(s, i), stream)
  {
    var before, after := s[..i], s[i + 1..];
    assert s == before + ([s[i]] + after);
    AllConcat(before, [s[i]] + after, stream);
    AllConcat([s[i]], after, stream);
    AllConcat(before, after, stream);
    AllOne(s[i], stream);
    if s[i].stream == stream {
      NoneOfStream(before, |before|, stream);
    }
  }

  lemma {:induction false} Regroup(a: seq<Completion>, b: seq<Completion>, c: seq<Completion>, d: seq<Completion>)
    ensures a + b + (c + d) == a + (b + c) + d && a + b + (c + d) == a + b + c + d
  {
  }

  lemma {:induction false} LineRecord(w: World, e: Event, stream: int)
    requires e.Record?
    ensures Line(Step(w, e), stream) == Line(w, stream) + All(Launched(e, w.next), stream)
  {
    if e.launched {
      AllConcat(w.inFlight, Launched(e, w.next), stream);
      Regroup(All(w.drained, stream), All(w.buffer, stream), All(w.inFlight, stream), All(Launched(e, w.next), stream));
    }
  }

  lemma {:induction false} LineFire(w: World, e: Event, stream: int)
    requires e.Fire? && InOrder(w, e)
    ensures Line(Step(w, e), stream) == Line(w, stream)
  {
    if e.i < |w.inFlight| {
      var c := w.inFlight[e.i];
      AllConcat(w.buffer, [c], stream);
      TakeFirst(w.inFlight, e.i, stream);
      Regroup(All(w.drained, stream), All(w.buffer, stream), All([c], stream), All(RemoveAt(w.inFlight, e.i), stream));
    }
  }

  lemma {:induction false} LineDrain(w: World, stream: int)
    ensures Line(Step(w, Drain), stream) == Line(w, stream)
  {
    AllConcat(w.drained, w.buffer, stream);
  }

  lemma {:induction false} LineStep(w: World, e: Event, stream: int)
    requires InOrder(w, e)
    ensures Line(Step(w, e), stream) == Line(w, stream) + All(Launched(e, w.next), stream)
  {
    match e
    case Record(_, _, _, _) => LineRecord(w, e, stream);
    case Fire(_) => LineFire(w, e, stream);
    case Drain => LineDrain(w, stream);
  }

  /** The line of a stream is what was launched on it. */
  predicate Aligned(w: World, launched: seq<Completion>, stream: int) {
    Line(w, stream) == All(launched, stream)
  }

  lemma {:induction false} AlignedStep(w: World, e: Event, launched: seq<Completion>, stream: int)
    requires InOrder(w, e) && Aligned(w, launched, stream)
    ensures Aligned(Step(w, e), launched + Launched(e, w.next), stream)
  {
    LineStep(w, e, stream);
    AllConcat(launched, Launched(e, w.next), stream);
  }

  /**
   When streams fire in order, what was drained of a stream, then what is buffered, then what is
   in flight is exactly what was launched on it, in the order of the launches.
   */
  lemma {:induction false} StreamOrder(es: seq<Event>, n: nat, stream: int)
    requires n <= |es| && FiresInOrder(es, n)
    ensures Aligned(WorldAt(es, n), AllLaunched(es, n), stream)
    decreases n
  {
    if n > 0 {
      StreamOrder(es, n - 1, stream);
      TicketsAt(es, n - 1);
      AlignedStep(WorldAt(es, n - 1), es[n - 1], AllLaunched(es, n - 1), stream);
    }
  }
}
