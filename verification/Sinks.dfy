/** The best-effort event sink: a bounded queue in front of one flusher, and the books it keeps. Cut at
    the awaits, like the pool. */
module Sinks {
  import opened Ordering

  /** Each wanted event is one record. */
  type Event = nat

  /** `maxQueued` 0 means no bound, as in `asyncio.Queue`. */
  datatype Limits = Limits(batchSize: nat, maxQueued: nat)

  datatype Phase = NoFlusher | Fetching | Collecting | Sending

  /** The sink's fields, and what has become of each event: `calling` are still in their call, `refused`
      were never queued, `log` has left the flusher's hand, published or not. */
  datatype State = State(
    queue: seq<Event>, hand: seq<Event>, phase: Phase, ready: bool, idle: bool,
    published: int, dropped: int, batches: int,
    calling: set<Event>, refused: set<Event>, log: seq<(Event, bool)>)

  datatype Step =
    | Call(event: Event)
    | Started(event: Event, ok: bool)
    | Open
    | First
    | More
    | Lingered
    | Readied
    | Sent(ok: bool)

  function Events(log: seq<(Event, bool)>): (s: seq<Event>)
    ensures |s| == |log| && forall i :: 0 <= i < |log| ==> s[i] == log[i].0
  {
    seq(|log|, i requires 0 <= i < |log| => log[i].0)
  }

  /** Everything the queue has ever accepted, in that order. */
  function Accepted(s: State): seq<Event> { Events(s.log) + s.hand + s.queue }

  ghost predicate Known(s: State, e: Event) { e in Accepted(s) || e in s.calling || e in s.refused }

  ghost predicate Enabled(limits: Limits, s: State, step: Step) {
    match step
    case Call(e) => !Known(s, e)
    case Started(e, _) => e in s.calling
    case Open => true
    case First => s.phase.Fetching? && s.queue != []
    case More => s.phase.Collecting? && s.queue != [] && |s.hand| < limits.batchSize
    case Lingered => s.phase.Collecting?
    case Readied => s.phase.Sending?
    case Sent(_) => s.phase.Sending?
  }

  /** `_note_drop` for an event that never got into the queue. */
  function Refuse(s: State, e: Event): State {
    s.(dropped := s.dropped + 1, ready := false, refused := s.refused + {e})
  }

  predicate Full(limits: Limits, queue: seq<Event>) { limits.maxQueued != 0 && |queue| >= limits.maxQueued }

  /** `put_nowait`, or the drop when the queue is full. */
  function Offer(limits: Limits, s: State, e: Event): State {
    if Full(limits, s.queue) then Refuse(s, e) else s.(queue := s.queue + [e], idle := false)
  }

  /** `start` has connected: the sink is ready and has a flusher. */
  function Opened(s: State): State {
    s.(ready := true, phase := if s.phase.NoFlusher? then Fetching else s.phase)
  }

  function Marked(hand: seq<Event>, ok: bool): (s: seq<(Event, bool)>)
    ensures |s| == |hand| && forall i :: 0 <= i < |hand| ==> s[i] == (hand[i], ok)
  {
    seq(|hand|, i requires 0 <= i < |hand| => (hand[i], ok))
  }

  function After(limits: Limits, s: State, step: Step): State
    requires Enabled(limits, s, step)
  {
    match step
    case Call(e) => if s.ready then Offer(limits, s, e) else s.(calling := s.calling + {e})
    case Started(e, ok) =>
      var t := s.(calling := s.calling - {e});
      if ok then Offer(limits, Opened(t), e) else Refuse(t, e)
    case Open => Opened(s)
    case First => s.(hand := [s.queue[0]], queue := s.queue[1..], phase := Collecting)
    case More => s.(hand := s.hand + [s.queue[0]], queue := s.queue[1..])
    case Lingered => s.(phase := Sending)
    case Readied => s.(ready := true)
    case Sent(ok) =>
      var t := if ok then s.(published := s.published + |s.hand|, batches := s.batches + 1)
               else s.(dropped := s.dropped + |s.hand|, ready := false);
      t.(hand := [], phase := Fetching, idle := s.idle || s.queue == [], log := s.log + Marked(s.hand, ok))
  }

  // ------------------------------------------------------------ the invariant

  function Count(log: seq<(Event, bool)>, ok: bool): nat {
    if log == [] then 0 else Count(log[..|log| - 1], ok) + if log[|log| - 1].1 == ok then 1 else 0
  }

  ghost predicate Places(s: State) {
    && Distinct(Accepted(s))
    && (forall e :: e in Accepted(s) ==> e !in s.calling && e !in s.refused)
    && s.calling !! s.refused
  }

  ghost predicate Books(limits: Limits, s: State) {
    && s.published == Count(s.log, true)
    && s.dropped == Count(s.log, false) + |s.refused|
    && 0 <= s.batches <= s.published <= s.batches * limits.batchSize
    && (s.idle <==> s.queue == [] && s.hand == [])
    && |s.hand| <= limits.batchSize
    && (s.hand == [] <==> s.phase.NoFlusher? || s.phase.Fetching?)
    && (limits.maxQueued != 0 ==> |s.queue| <= limits.maxQueued)
    && (s.ready || s.queue != [] ==> !s.phase.NoFlusher?)
  }

  ghost predicate Sound(limits: Limits, s: State) { Places(s) && Books(limits, s) }

  const NEW := State([], [], NoFlusher, false, true, 0, 0, 0, {}, {}, [])

  lemma {:induction false} CountAppend(a: seq<(Event, bool)>, b: seq<(Event, bool)>, ok: bool)
    ensures Count(a + b, ok) == Count(a, ok) + Count(b, ok)
    decreases |b|
  {
    if b == [] {
      assert a + b == a;
    } else {
      assert (a + b)[..|a + b| - 1] == a + b[..|b| - 1];
      CountAppend(a, b[..|b| - 1], ok);
    }
  }

  lemma {:induction false} CountMarked(hand: seq<Event>, mark: bool, ok: bool)
    ensures Count(Marked(hand, mark), ok) == if mark == ok then |hand| else 0
  {
    if hand != [] {
      assert Marked(hand, mark)[..|hand| - 1] == Marked(hand[..|hand| - 1], mark);
      CountMarked(hand[..|hand| - 1], mark, ok);
    }
  }

  lemma MoreBatches(batches: int, published: int, size: nat, n: nat)
    requires published <= batches * size && n <= size
    ensures published + n <= (batches + 1) * size
  {}

  lemma SentKeepsBooks(limits: Limits, s: State, step: Step)
    requires Books(limits, s) && Enabled(limits, s, step) && step.Sent?
    ensures Books(limits, After(limits, s, step))
  {
    hide Count;
    hide Marked;
    CountAppend(s.log, Marked(s.hand, step.ok), true);
    CountAppend(s.log, Marked(s.hand, step.ok), false);
    CountMarked(s.hand, step.ok, true);
    CountMarked(s.hand, step.ok, false);
    MoreBatches(s.batches, s.published, limits.batchSize, |s.hand|);
  }

  lemma OffersKeepBooks(limits: Limits, s: State, step: Step)
    requires Books(limits, s) && Enabled(limits, s, step) && (step.Call? || step.Started?)
    requires step.event !in s.refused && limits.batchSize >= 1
    ensures Books(limits, After(limits, s, step))
  {
    hide Count;
    hide Known;
    assert |s.refused + {step.event}| == |s.refused| + 1;
  }

  lemma FlushingKeepsBooks(limits: Limits, s: State, step: Step)
    requires Books(limits, s) && Enabled(limits, s, step) && !step.Call? && !step.Started? && !step.Sent?
    requires limits.batchSize >= 1
    ensures Books(limits, After(limits, s, step))
  {
    hide Count;
  }

  lemma BooksKept(limits: Limits, s: State, step: Step)
    requires Sound(limits, s) && Enabled(limits, s, step) && limits.batchSize >= 1
    ensures Books(limits, After(limits, s, step))
  {
    hide Books;
    hide After;
    hide Distinct;
    if step.Sent? {
      SentKeepsBooks(limits, s, step);
    } else if step.Call? || step.Started? {
      OffersKeepBooks(limits, s, step);
    } else {
      FlushingKeepsBooks(limits, s, step);
    }
  }

  /** The step puts its event into the queue. */
  predicate Enters(limits: Limits, s: State, step: Step) {
    (if step.Call? then s.ready else step.Started? && step.ok) && !Full(limits, s.queue)
  }

  /** A step adds to the end of the accepted sequence the event it queues, if it queues one. */
  lemma AcceptedAfter(limits: Limits, s: State, step: Step)
    requires (s.hand == [] <==> s.phase.NoFlusher? || s.phase.Fetching?) && Enabled(limits, s, step)
    ensures var t := After(limits, s, step);
            if Enters(limits, s, step) then
              && Accepted(t) == Accepted(s) + [step.event]
              && t.refused == s.refused && t.calling == s.calling - {step.event}
            else Accepted(t) == Accepted(s)
  {
    hide Full;
    hide Accepted;
    if step.Call? || step.Started? {
      AcceptedOffer(limits, s, step);
    } else {
      AcceptedMove(limits, s, step);
    }
  }

  lemma AcceptedOffer(limits: Limits, s: State, step: Step)
    requires Enabled(limits, s, step) && (step.Call? || step.Started?)
    ensures var t := After(limits, s, step);
            if Enters(limits, s, step) then
              && Accepted(t) == Accepted(s) + [step.event]
              && t.refused == s.refused && t.calling == s.calling - {step.event}
            else Accepted(t) == Accepted(s)
  {
    hide Full;
    assert Accepted(s) + [step.event] == Events(s.log) + s.hand + (s.queue + [step.event]);
    assert step.Call? ==> s.calling - {step.event} == s.calling;
  }

  lemma AcceptedMove(limits: Limits, s: State, step: Step)
    requires (s.hand == [] <==> s.phase.NoFlusher? || s.phase.Fetching?) && Enabled(limits, s, step)
    requires !step.Call? && !step.Started?
    ensures Accepted(After(limits, s, step)) == Accepted(s)
  {
    if step.Sent? {
      AcceptedSent(limits, s, step);
    } else if step.First? || step.More? {
      AcceptedTake(limits, s, step);
    }
  }

  lemma AcceptedSent(limits: Limits, s: State, step: Step)
    requires Enabled(limits, s, step) && step.Sent?
    ensures Accepted(After(limits, s, step)) == Accepted(s)
  {
    assert Events(s.log + Marked(s.hand, step.ok)) == Events(s.log) + s.hand;
  }

  lemma AcceptedTake(limits: Limits, s: State, step: Step)
    requires (s.hand == [] <==> s.phase.NoFlusher? || s.phase.Fetching?) && Enabled(limits, s, step)
    requires step.First? || step.More?
    ensures Accepted(After(limits, s, step)) == Accepted(s)
  {
    hide Events;
    assert s.queue == [s.queue[0]] + s.queue[1..];
    assert Events(s.log) + s.hand + ([s.queue[0]] + s.queue[1..])
           == Events(s.log) + (s.hand + [s.queue[0]]) + s.queue[1..];
  }

  lemma PlacesKept(limits: Limits, s: State, step: Step)
    requires Sound(limits, s) && Enabled(limits, s, step)
    ensures Places(After(limits, s, step))
  {
    hide Accepted;
    hide Count;
    AcceptedAfter(limits, s, step);
  }

  lemma SoundKept(limits: Limits, s: State, step: Step)
    requires Sound(limits, s) && Enabled(limits, s, step) && limits.batchSize >= 1
    ensures Sound(limits, After(limits, s, step))
  {
    hide After;
    hide Places;
    hide Books;
    BooksKept(limits, s, step);
    PlacesKept(limits, s, step);
  }

  // ------------------------------------------------------------ whole runs

  ghost predicate Run(limits: Limits, trace: seq<State>, steps: seq<Step>) {
    && |trace| == |steps| + 1 && trace[0] == NEW
    && forall i :: 0 <= i < |steps| ==>
         Enabled(limits, trace[i], steps[i]) && trace[i + 1] == After(limits, trace[i], steps[i])
  }

  lemma {:induction false} RunSound(limits: Limits, trace: seq<State>, steps: seq<Step>, i: nat)
    requires Run(limits, trace, steps) && i < |trace| && limits.batchSize >= 1
    ensures Sound(limits, trace[i])
  {
    hide After;
    hide Enabled;
    if i > 0 {
      RunSound(limits, trace, steps, i - 1);
      BooksKept(limits, trace[i - 1], steps[i - 1]);
      PlacesKept(limits, trace[i - 1], steps[i - 1]);
    }
  }

  /** The events that have called the sink so far. */
  ghost function Called(steps: seq<Step>): set<Event> { set i | 0 <= i < |steps| && steps[i].Call? :: steps[i].event }

  ghost function Whereabouts(s: State): set<Event> { SetOf(Accepted(s)) + s.calling + s.refused }

  lemma WhereaboutsAfter(limits: Limits, s: State, step: Step)
    requires Sound(limits, s) && Enabled(limits, s, step)
    ensures Whereabouts(After(limits, s, step)) == Whereabouts(s) + if step.Call? then {step.event} else {}
  {
    hide Accepted;
    hide Sound;
    SoundHand(limits, s);
    AcceptedAfter(limits, s, step);
    if step.Call? || step.Started? { EventPlaced(limits, s, step); }
    var t := After(limits, s, step);
    assert t.calling + t.refused <= s.calling + s.refused + if step.Call? || step.Started? then {step.event} else {};
    assert s.calling + s.refused <= t.calling + t.refused + if step.Started? then {step.event} else {};
  }

  lemma SoundHand(limits: Limits, s: State)
    requires Sound(limits, s)
    ensures s.hand == [] <==> s.phase.NoFlusher? || s.phase.Fetching?
  {}

  /** An event offered or started is accepted, still calling, or refused. */
  lemma EventPlaced(limits: Limits, s: State, step: Step)
    requires Enabled(limits, s, step) && (step.Call? || step.Started?)
    ensures var t := After(limits, s, step);
            step.event in Accepted(t) || step.event in t.calling || step.event in t.refused
  {
    hide Full;
  }

  lemma {:induction false} CalledStep(steps: seq<Step>, i: nat)
    requires i < |steps|
    ensures Called(steps[..i + 1]) == Called(steps[..i]) + if steps[i].Call? then {steps[i].event} else {}
  {
    var now, before := steps[..i + 1], steps[..i];
    forall e | e in Called(now) ensures e in Called(before) || (steps[i].Call? && e == steps[i].event) {
      var j :| 0 <= j < |now| && now[j].Call? && now[j].event == e;
      if j < i { assert before[j] == now[j]; }
    }
    forall e | e in Called(before) ensures e in Called(now) {
      var j :| 0 <= j < |before| && before[j].Call? && before[j].event == e;
      assert now[j] == before[j];
    }
    if steps[i].Call? { assert now[i] == steps[i]; }
  }

  lemma {:induction false} NoneLost(limits: Limits, trace: seq<State>, steps: seq<Step>, i: nat)
    requires Run(limits, trace, steps) && i < |trace| && limits.batchSize >= 1
    ensures Whereabouts(trace[i]) == Called(steps[..i])
  {
    hide After;
    hide Enabled;
    hide Whereabouts;
    hide Called;
    if i == 0 {
      NobodyYet(steps);
    } else {
      NoneLost(limits, trace, steps, i - 1);
      RunSound(limits, trace, steps, i - 1);
      WhereaboutsAfter(limits, trace[i - 1], steps[i - 1]);
      CalledStep(steps, i - 1);
    }
  }

  lemma NobodyYet(steps: seq<Step>)
    ensures Whereabouts(NEW) == Called(steps[..0]) == {}
  {}

  // ------------------------------------------------------------ the main results

  function Published(log: seq<(Event, bool)>): seq<Event> {
    if log == [] then []
    else Published(log[..|log| - 1]) + if log[|log| - 1].1 then [log[|log| - 1].0] else []
  }

  function LostInBatch(log: seq<(Event, bool)>): seq<Event> {
    if log == [] then []
    else LostInBatch(log[..|log| - 1]) + if log[|log| - 1].1 then [] else [log[|log| - 1].0]
  }

  /** Every event that called is in exactly one place: published, dropped from a batch, in the flusher's
      hand or in the queue (these four in the order of acceptance, none twice), still in its call, or refused. */
  lemma ExactlyOnePlace(limits: Limits, trace: seq<State>, steps: seq<Step>, i: nat)
    requires Run(limits, trace, steps) && i < |trace| && limits.batchSize >= 1
    ensures Called(steps[..i]) == SetOf(Accepted(trace[i])) + trace[i].calling + trace[i].refused
    ensures Distinct(Accepted(trace[i])) && trace[i].calling !! trace[i].refused
    ensures forall e :: e in Accepted(trace[i]) ==> e !in trace[i].calling + trace[i].refused
  {
    hide Run;
    hide Accepted;
    NoneLost(limits, trace, steps, i);
    RunSound(limits, trace, steps, i);
  }

  lemma {:induction false} PublishedCount(log: seq<(Event, bool)>)
    ensures |Published(log)| == Count(log, true) && |LostInBatch(log)| == Count(log, false)
  {
    if log != [] { PublishedCount(log[..|log| - 1]); }
  }

  lemma {:induction false} CountBoth(log: seq<(Event, bool)>)
    ensures Count(log, true) + Count(log, false) == |log|
  {
    if log != [] { CountBoth(log[..|log| - 1]); }
  }

  /** `stats()` never lies: the counters are the numbers of events published and dropped, and together
      with those still on their way they account for every event. */
  lemma CountersExact(limits: Limits, trace: seq<State>, steps: seq<Step>, i: nat)
    requires Run(limits, trace, steps) && i < |trace| && limits.batchSize >= 1
    ensures var s := trace[i];
            && s.published == |Published(s.log)|
            && s.dropped == |LostInBatch(s.log)| + |s.refused|
            && s.published + s.dropped + |s.queue| + |s.hand| + |s.calling| == |Called(steps[..i])|
  {
    hide Run;
    hide Called;
    hide Accepted;
    var s := trace[i];
    RunSound(limits, trace, steps, i);
    PublishedCount(s.log);
    CountBoth(s.log);
    NoneLost(limits, trace, steps, i);
    DistinctSize(Accepted(s));
    DisjointSizes(SetOf(Accepted(s)), s.calling, s.refused);
    AcceptedSize(s);
  }

  lemma AcceptedSize(s: State)
    ensures |Accepted(s)| == |s.log| + |s.hand| + |s.queue|
  {}

  ghost function SetOf(s: seq<Event>): set<Event> { set e | e in s }

  lemma DisjointSizes(a: set<Event>, b: set<Event>, c: set<Event>)
    requires a !! b && a !! c && b !! c
    ensures |a + b + c| == |a| + |b| + |c|
  {
    assert |a + b| == |a| + |b|;
  }

  lemma SetOfAppend(front: seq<Event>, last: Event)
    ensures SetOf(front + [last]) == SetOf(front) + {last}
  {}

  lemma {:induction false} DistinctSize(s: seq<Event>)
    requires Distinct(s)
    ensures |SetOf(s)| == |s|
  {
    if s == [] {
      assert SetOf(s) == {};
    } else {
      var front, last := s[..|s| - 1], s[|s| - 1];
      DistinctSize(front);
      SetOfAppend(front, last);
      assert s == front + [last] && last !in front;
      hide SetOf;
    }
  }

  /** What has been published stands in the order in which the queue accepted it. */
  ghost predicate Subsequence(a: seq<Event>, b: seq<Event>)
    decreases |b|
  {
    a == [] || (b != [] && (Subsequence(a, b[..|b| - 1])
                            || (a[|a| - 1] == b[|b| - 1] && Subsequence(a[..|a| - 1], b[..|b| - 1]))))
  }

  lemma {:induction false} PublishedInOrder(log: seq<(Event, bool)>)
    ensures Subsequence(Published(log), Events(log))
  {
    if log != [] {
      var front, last := log[..|log| - 1], log[|log| - 1];
      PublishedInOrder(front);
      assert Events(log)[..|log| - 1] == Events(front);
      if last.1 { assert (Published(front) + [last.0])[..|Published(front)|] == Published(front); }
      else { assert Published(front) + [] == Published(front); }
    }
  }

  lemma {:induction false} SubsequenceGrows(a: seq<Event>, b: seq<Event>, more: seq<Event>)
    requires Subsequence(a, b)
    ensures Subsequence(a, b + more)
    decreases |more|
  {
    if more == [] {
      assert b + more == b;
    } else {
      SubsequenceGrows(a, b, more[..|more| - 1]);
      assert (b + more)[..|b + more| - 1] == b + more[..|more| - 1];
    }
  }

  // ------------------------------------------------------------ the order of the run

  /** The events the queue has accepted in the first `i` steps, in the order of the steps. */
  function Arrivals(limits: Limits, trace: seq<State>, steps: seq<Step>, i: nat): seq<Event>
    requires i <= |steps| && |trace| == |steps| + 1
  {
    if i == 0 then []
    else
      var step := steps[i - 1];
      Arrivals(limits, trace, steps, i - 1)
      + if Enters(limits, trace[i - 1], step) && (step.Call? || step.Started?) then [step.event] else []
  }

  /** The batches that were produced in the first `i` steps, one after the other. */
  function Deliveries(trace: seq<State>, steps: seq<Step>, i: nat): seq<Event>
    requires i <= |steps| && |trace| == |steps| + 1
  {
    if i == 0 then []
    else Deliveries(trace, steps, i - 1) + if steps[i - 1] == Sent(true) then trace[i - 1].hand else []
  }

  lemma {:induction false} ArrivalsAccepted(limits: Limits, trace: seq<State>, steps: seq<Step>, i: nat)
    requires Run(limits, trace, steps) && i < |trace| && limits.batchSize >= 1
    ensures Arrivals(limits, trace, steps, i) == Accepted(trace[i])
  {
    hide Accepted;
    hide After;
    hide Sound;
    if i == 0 {
      NothingAccepted();
    } else {
      ArrivalsAccepted(limits, trace, steps, i - 1);
      RunSound(limits, trace, steps, i - 1);
      SoundHand(limits, trace[i - 1]);
      AcceptedAfter(limits, trace[i - 1], steps[i - 1]);
    }
  }

  lemma NothingAccepted()
    ensures Accepted(NEW) == [] && Published(NEW.log) == []
  {}

  lemma {:induction false} PublishedAppend(log: seq<(Event, bool)>, hand: seq<Event>, ok: bool)
    ensures Published(log + Marked(hand, ok)) == Published(log) + if ok then hand else []
  {
    var all := log + Marked(hand, ok);
    if hand == [] {
      assert all == log;
    } else {
      var front := hand[..|hand| - 1];
      assert all[..|all| - 1] == log + Marked(front, ok);
      PublishedAppend(log, front, ok);
      assert hand == front + [hand[|hand| - 1]];
    }
  }

  lemma LogAfter(limits: Limits, s: State, step: Step)
    requires Enabled(limits, s, step)
    ensures After(limits, s, step).log == if step.Sent? then s.log + Marked(s.hand, step.ok) else s.log
  {}

  lemma {:induction false} DeliveriesPublished(limits: Limits, trace: seq<State>, steps: seq<Step>, i: nat)
    requires Run(limits, trace, steps) && i < |trace|
    ensures Deliveries(trace, steps, i) == Published(trace[i].log)
  {
    hide Published;
    if i == 0 {
      NothingAccepted();
    } else {
      DeliveriesPublished(limits, trace, steps, i - 1);
      var s, step := trace[i - 1], steps[i - 1];
      LogAfter(limits, s, step);
      hide After;
      if step.Sent? { PublishedAppend(s.log, s.hand, step.ok); }
    }
  }

  /** What the client has been given is, in this order, a subsequence of what the queue has accepted. */
  lemma DeliveredInOrder(limits: Limits, trace: seq<State>, steps: seq<Step>, i: nat)
    requires Run(limits, trace, steps) && i < |trace| && limits.batchSize >= 1
    ensures Subsequence(Deliveries(trace, steps, i), Arrivals(limits, trace, steps, i))
  {
    hide Run;
    ArrivalsAccepted(limits, trace, steps, i);
    DeliveriesPublished(limits, trace, steps, i);
    var s := trace[i];
    PublishedInOrder(s.log);
    SubsequenceGrows(Published(s.log), Events(s.log), s.hand + s.queue);
    assert Events(s.log) + (s.hand + s.queue) == Accepted(s);
  }

  /** `_idle` is set exactly while nothing is queued or in hand, so a `flush` that returns in time means
      that every accepted event has been published or counted as dropped. */
  lemma IdleMeansDone(limits: Limits, trace: seq<State>, steps: seq<Step>, i: nat)
    requires Run(limits, trace, steps) && i < |trace| && limits.batchSize >= 1
    ensures trace[i].idle <==> trace[i].queue == [] && trace[i].hand == []
    ensures trace[i].idle ==> Accepted(trace[i]) == Events(trace[i].log)
  {
    hide Run;
    RunSound(limits, trace, steps, i);
  }

  /** Each batch that leaves has between one record and `batch_size`, and the queue keeps its bound. */
  lemma BatchesBounded(limits: Limits, trace: seq<State>, steps: seq<Step>, i: nat)
    requires Run(limits, trace, steps) && i < |trace| && limits.batchSize >= 1
    ensures i < |steps| && steps[i].Sent? ==> 1 <= |trace[i].hand| <= limits.batchSize
    ensures trace[i].batches <= trace[i].published <= trace[i].batches * limits.batchSize
    ensures limits.maxQueued != 0 ==> |trace[i].queue| <= limits.maxQueued
  {
    RunSound(limits, trace, steps, i);
  }

  /** What the flusher still has to do: each of its own steps takes something off. */
  function Work(limits: Limits, s: State): nat {
    3 * |s.queue| + match s.phase
                    case Collecting => 2
                    case Sending => 1
                    case _ => 0
  }

  /** Whatever is queued or in hand, the flusher is there to take it on: it has a step to make, and
      every such step, a reconnect apart, brings it nearer to being done. */
  lemma FlusherProceeds(limits: Limits, trace: seq<State>, steps: seq<Step>, i: nat)
    requires Run(limits, trace, steps) && i < |trace| && limits.batchSize >= 1 && !trace[i].idle
    ensures Enabled(limits, trace[i], First) || Enabled(limits, trace[i], Lingered)
            || Enabled(limits, trace[i], Sent(true))
    ensures forall step ::
              step in {First, More, Lingered, Sent(true), Sent(false)} && Enabled(limits, trace[i], step) ==>
                Work(limits, After(limits, trace[i], step)) < Work(limits, trace[i])
  {
    hide Run;
    RunSound(limits, trace, steps, i);
  }

  // ------------------------------------------------------------ the sink itself

  class KafkaEventSink {
    const limits: Limits
    var queue: seq<Event>
    var ready: bool
    var idle: bool
    var published: int
    var dropped: int
    var batches: int
    /** The flusher's locals: where it stands, and its batch. */
    var phase: Phase
    var hand: seq<Event>
    ghost var calling: set<Event>
    ghost var refused: set<Event>
    ghost var log: seq<(Event, bool)>

    ghost function Model(): State
      reads this
    {
      State(queue, hand, phase, ready, idle, published, dropped, batches, calling, refused, log)
    }

    ghost predicate Valid()
      reads this
    {
      limits.batchSize >= 1 && Sound(limits, Model())
    }

    constructor (batchSize: int, maxQueued: nat)
      ensures Valid() && Model() == NEW && limits == Limits(if batchSize > 1 then batchSize else 1, maxQueued)
    {
      limits := Limits(if batchSize > 1 then batchSize else 1, maxQueued);
      queue, ready, idle, published, dropped, batches := [], false, true, 0, 0, 0;
      phase, hand := NoFlusher, [];
      calling, refused, log := {}, {}, [];
    }

    method NoteDrop(count: nat)
      modifies this`dropped, this`ready
      ensures dropped == old(dropped) + count && !ready
    {
      dropped := dropped + count;
      ready := false;
    }

    /** The end of a call: into the queue, or dropped if it is full. */
    method PutNowait(event: Event)
      modifies this`queue, this`idle, this`dropped, this`ready, this`refused
      ensures Model() == Offer(limits, old(Model()), event)
    {
      if limits.maxQueued != 0 && |queue| >= limits.maxQueued {
        NoteDrop(1);
        refused := refused + {event};
      } else {
        queue := queue + [event];
        idle := false;
      }
    }

    /** A call up to its first await, or all of it if the sink is ready. */
    method Call(event: Event)
      requires Valid() && Enabled(limits, Model(), Step.Call(event))
      modifies this
      ensures Valid() && Model() == After(limits, old(Model()), Step.Call(event))
    {
      hide Sound;
      SoundKept(limits, Model(), Step.Call(event));
      if ready {
        PutNowait(event);
      } else {
        calling := calling + {event};
      }
    }

    method Open()
      modifies this`ready, this`phase
      ensures Model() == After(limits, old(Model()), Step.Open)
    {
      ready := true;
      if phase.NoFlusher? {
        phase := Fetching;
      }
    }

    /** The rest of a call that had to connect first. */
    method Started(event: Event, ok: bool)
      requires Valid() && Enabled(limits, Model(), Step.Started(event, ok))
      modifies this
      ensures Valid() && Model() == After(limits, old(Model()), Step.Started(event, ok))
    {
      hide Sound;
      SoundKept(limits, Model(), Step.Started(event, ok));
      calling := calling - {event};
      if ok {
        Open();
        PutNowait(event);
      } else {
        NoteDrop(1);
        refused := refused + {event};
      }
    }

    method First()
      requires Valid() && Enabled(limits, Model(), Step.First)
      modifies this
      ensures Valid() && Model() == After(limits, old(Model()), Step.First)
    {
      hide Sound;
      SoundKept(limits, Model(), Step.First);
      hand, queue, phase := [queue[0]], queue[1..], Collecting;
    }

    method More()
      requires Valid() && Enabled(limits, Model(), Step.More)
      modifies this
      ensures Valid() && Model() == After(limits, old(Model()), Step.More)
    {
      hide Sound;
      SoundKept(limits, Model(), Step.More);
      hand, queue := hand + [queue[0]], queue[1..];
    }

    /** The batch is full, or the time to linger is over. */
    method Lingered()
      requires Valid() && Enabled(limits, Model(), Step.Lingered)
      modifies this
      ensures Valid() && Model() == After(limits, old(Model()), Step.Lingered)
    {
      hide Sound;
      SoundKept(limits, Model(), Step.Lingered);
      phase := Sending;
    }

    method Readied()
      requires Valid() && Enabled(limits, Model(), Step.Readied)
      modifies this
      ensures Valid() && Model() == After(limits, old(Model()), Step.Readied)
    {
      hide Sound;
      SoundKept(limits, Model(), Step.Readied);
      ready := true;
    }

    /** The produce has come back, or raised. */
    method Sent(ok: bool)
      requires Valid() && Enabled(limits, Model(), Step.Sent(ok))
      modifies this
      ensures Valid() && Model() == After(limits, old(Model()), Step.Sent(ok))
    {
      hide Sound;
      SoundKept(limits, Model(), Step.Sent(ok));
      if ok {
        published := published + |hand|;
        batches := batches + 1;
      } else {
        NoteDrop(|hand|);
      }
      log := log + Marked(hand, ok);
      hand := [];
      phase := Fetching;
      if |queue| == 0 {
        idle := true;
      }
    }
  }
}
