/** In which wave a node is decided, whatever the nodes do, and how wide a wave of a graph can be. */
module WaveWidth {
  import opened Wrappers
  import opened Ordering
  import opened Graphs
  import opened Engine
  import opened Frontiers
  import opened WaveLevels
  import Scheduler

  lemma {:induction false} GreatestExists(s: set<nat>) returns (x: nat)
    requires s != {}
    ensures x in s && forall y :: y in s ==> y <= x
  {
    x :| x in s;
    var rest := s - {x};
    assert s == rest + {x};
    if rest != {} {
      var z := GreatestExists(rest);
      if x < z { x := z; }
    }
  }

  lemma HasGreatest(s: set<nat>)
    requires s != {}
    ensures exists x :: x in s && forall y :: y in s ==> y <= x
  {
    var x := GreatestExists(s);
  }

  ghost function Greatest(s: set<nat>): (x: nat)
    ensures s != {} ==> x in s && forall y :: y in s ==> y <= x
  {
    if s == {} then 0
    else
      HasGreatest(s);
      var x :| x in s && forall y :: y in s ==> y <= x;
      x
  }

  // ------------------------------------------------------------ the exact wave of a node

  ghost function SourceWaves(g: Graph, runs: map<Id, NodeRun>, n: Id): set<nat> {
    set e | e in g.In(n) && e.source in runs && runs[e.source].wave.Some? :: runs[e.source].wave.value
  }

  /** A root is decided in the first wave; any other node with the last of its predecessors if it is skipped,
      and one wave later if it is not. */
  ghost function WaveBySources(g: Graph, runs: map<Id, NodeRun>, n: Id): nat
    requires n in runs
  {
    if g.In(n) == {} then 1
    else (if runs[n].status.Skipped? then 0 else 1) + Greatest(SourceWaves(g, runs, n))
  }

  /** The incoming edges of `n` come from decided nodes, the last of them decided in wave `last`. */
  ghost predicate LastSource(g: Graph, runs: map<Id, NodeRun>, n: Id, last: nat) {
    && (forall e :: e in g.In(n) ==> e.source in runs && runs[e.source].wave.Some? && runs[e.source].wave.value <= last)
    && exists e :: e in g.In(n) && e.source in runs && runs[e.source].wave == Some(last)
  }

  ghost predicate Punctual(g: Graph, s: State, n: Id)
    requires n in s.runs
  {
    var rec := s.runs[n];
    if rec.status.Pending? then
      n in s.ready ==> if g.In(n) == {} then s.waves == 0 else LastSource(g, s.runs, n, s.waves)
    else
      && rec.wave.Some? && 1 <= rec.wave.value <= s.waves
      && if g.In(n) == {} then rec.wave == Some(1)
         else LastSource(g, s.runs, n, if rec.status.Skipped? then rec.wave.value else rec.wave.value - 1)
  }

  ghost predicate AllPunctual(g: Graph, s: State) {
    s.runs.Keys == g.nodes.Keys && forall n {:trigger Punctual(g, s, n)} :: n in g.nodes ==> Punctual(g, s, n)
  }

  lemma LastSourceIsGreatest(g: Graph, runs: map<Id, NodeRun>, n: Id, last: nat)
    requires LastSource(g, runs, n, last)
    ensures Greatest(SourceWaves(g, runs, n)) == last
  {
    var e :| e in g.In(n) && e.source in runs && runs[e.source].wave == Some(last);
    assert runs[e.source].wave.value in SourceWaves(g, runs, n);
  }

  /** What a wave makes of one record. */
  ghost predicate Moves(s: State, t: State, n: Id)
    requires n in s.runs && n in t.runs
  {
    if n in s.ready then
      && s.runs[n].status.Pending? && t.runs[n].wave == Some(s.waves + 1)
      && !t.runs[n].status.Pending? && !t.runs[n].status.Skipped?
    else
      || t.runs[n] == s.runs[n]
      || (s.runs[n].status.Pending? && t.failures == []
          && t.runs[n] == s.runs[n].(status := NodeStatus.Skipped, wave := Some(s.waves + 1)))
  }

  lemma WaveMoves(g: Graph, beh: Behaviour, s: State, t: State, n: Id)
    requires Frontier(g, s) && WaveStep(g, beh, s, t) && n in g.nodes
    ensures n in s.runs && n in t.runs && Moves(s, t, n)
  {
    hide Frontier;
    hide WaveStep;
    hide Engine.Finished;
    hide OutcomeOf;
    FrontierBatch(g, s);
    NodeAfterWave(g, beh, s, n);
    RecordMoves(g, beh, s, t, n);
    if n in s.ready { FinishedWave(g, n, Some(s.waves + 1), OutcomeOf(g, beh, s, n)); }
  }

  lemma WaveShape(g: Graph, beh: Behaviour, s: State, t: State)
    requires Frontier(g, s) && WaveStep(g, beh, s, t)
    ensures t.waves == s.waves + 1 && t.runs.Keys == s.runs.Keys == g.nodes.Keys
    ensures if t.failures == [] then Frontier(g, t) else t.ready == []
  {
    hide Finished;
    hide Exact;
    hide Calm;
    FrontierBatch(g, s);
    hide Frontier;
    hide FatalOf;
    hide RecordAfter;
    hide OutcomeOf;
    hide RanOf;
  }

  /** A node passed over in a wave still has an edge to be counted. */
  lemma StillUncounted(g: Graph, s: State, n: Id) returns (e: Edge)
    requires Frontier(g, s) && n in g.nodes && s.runs[n].status.Pending? && n !in s.ready
    ensures e in g.In(n) && !SettledIn(s.runs, e.source)
  {
    hide Calm;
    assert Placed(g, s, Elements(s.ready), {}, n) && Exact(g, s, {}, n);
    assert n !in Elements(s.ready);
    e :| e in Uncounted(g, s.runs, {}, n);
  }

  /** A node passed over in a wave and settled or due by its end has a predecessor decided in that wave, and
      none decided later. */
  lemma PassedOverUntil(g: Graph, s: State, t: State, n: Id)
    requires g.Valid() && Frontier(g, s) && AllPunctual(g, s) && s.awaiting == map[] && t.waves == s.waves + 1
    requires t.runs.Keys == g.nodes.Keys && forall m :: m in g.nodes ==> Moves(s, t, m)
    requires n in g.nodes && s.runs[n].status.Pending? && n !in s.ready
    requires forall e :: e in g.In(n) ==> SettledIn(t.runs, e.source)
    ensures g.In(n) != {} && LastSource(g, t.runs, n, t.waves)
  {
    hide Frontier;
    var e := StillUncounted(g, s, n);
    NotPaused(g, s, e.source);
    forall e' | e' in g.In(n)
      ensures e'.source in t.runs && t.runs[e'.source].wave.Some? && t.runs[e'.source].wave.value <= t.waves
    {
      SourceWave(g, s, t, e'.source);
    }
    SourceWave(g, s, t, e.source);
  }

  /** A node settled by the end of a wave was decided in it or before. */
  lemma SourceWave(g: Graph, s: State, t: State, a: Id)
    requires AllPunctual(g, s) && a in g.nodes && a in t.runs && t.waves == s.waves + 1
    requires Moves(s, t, a) && SettledIn(t.runs, a)
    ensures t.runs[a].wave.Some? && t.runs[a].wave.value <= t.waves
    ensures s.runs[a].status.Pending? ==> t.runs[a].wave == Some(t.waves)
  {
    hide LastSource;
    assert Punctual(g, s, a);
  }

  lemma NotPaused(g: Graph, s: State, n: Id)
    requires Frontier(g, s) && s.awaiting == map[] && n in g.nodes
    ensures n in s.runs && !s.runs[n].status.Paused? && !s.runs[n].status.Running? && !s.runs[n].Fatal()
  {
    assert n in s.runs && s.runs[n].status.Paused? ==> n in s.awaiting;
  }

  lemma NodePunctual(g: Graph, s: State, t: State, n: Id)
    requires g.Valid() && Frontier(g, s) && AllPunctual(g, s) && s.awaiting == map[] && t.waves == s.waves + 1
    requires t.runs.Keys == g.nodes.Keys && forall m :: m in g.nodes ==> Moves(s, t, m)
    requires if t.failures == [] then Frontier(g, t) else t.ready == []
    requires n in g.nodes
    ensures Punctual(g, t, n)
  {
    hide Graph.Valid;
    hide Frontier;
    assert Moves(s, t, n) && Punctual(g, s, n);
    if !s.runs[n].status.Pending? || n in s.ready {
      SourcesStay(g, s, t, n);
    } else if t.runs[n].status.Skipped? || (t.failures == [] && n in t.ready) {
      DecidedSources(g, t, n);
      PassedOverUntil(g, s, t, n);
    }
  }

  /** Once a node is decided or due, its sources are settled. */
  lemma DecidedSources(g: Graph, t: State, n: Id)
    requires g.Valid() && Frontier(g, t) && n in g.nodes && n in t.runs
    requires !t.runs[n].status.Pending? || n in t.ready
    ensures forall e :: e in g.In(n) ==> SettledIn(t.runs, e.source)
  {
    FrontierJustified(g, t);
    if n in t.ready { DueSources(g, t, n); }
  }

  lemma DueSources(g: Graph, t: State, n: Id)
    requires Frontier(g, t) && n in t.ready
    ensures forall e :: e in g.In(n) ==> SettledIn(t.runs, e.source)
  {
    FrontierBatch(g, t);
    assert n in Elements(t.ready);
    assert Placed(g, t, Elements(t.ready), {}, n);
    ZeroMeansAllCounted(g, t, {}, n);
  }

  /** The sources of a node that is decided or due are settled and change no more. */
  lemma SourcesStay(g: Graph, s: State, t: State, n: Id)
    requires g.Valid() && Frontier(g, s) && n in g.nodes && n in s.runs && (!s.runs[n].status.Pending? || n in s.ready)
    requires t.runs.Keys == s.runs.Keys == g.nodes.Keys && forall m :: m in g.nodes ==> Moves(s, t, m)
    ensures forall last :: LastSource(g, s.runs, n, last) ==> LastSource(g, t.runs, n, last)
  {
    DecidedSources(g, s, n);
    hide Frontier;
    forall e | e in g.In(n) ensures t.runs[e.source] == s.runs[e.source] {
      assert Moves(s, t, e.source);
    }
  }

  lemma {:induction false} RunPunctual(g: Graph, beh: Behaviour, durable: bool, inputs: Outputs, trace: seq<World>)
    requires g.Valid() && Scheduler.Driven(g, beh, durable, World(Initial(g, inputs), None), trace)
    requires trace[|trace| - 1].state.awaiting == map[]
    ensures var s := trace[|trace| - 1].state;
            AllPunctual(g, s) && if s.failures == [] then Frontier(g, s) else s.ready == []
    decreases |trace|
  {
    hide Frontier;
    hide AllPunctual;
    if |trace| == 1 {
      StartsPunctual(g, inputs);
    } else {
      var before := trace[..|trace| - 1];
      var s, t := before[|before| - 1].state, trace[|trace| - 1].state;
      StepOnTime(g, beh, s, t);
      RunPunctual(g, beh, durable, inputs, before);
      StepPunctual(g, beh, s, t);
    }
  }

  lemma StartsPunctual(g: Graph, inputs: Outputs)
    requires g.Valid()
    ensures AllPunctual(g, Initial(g, inputs)) && Frontier(g, Initial(g, inputs))
  {
    hide Frontier;
    hide Sorted;
    hide Graph.Roots;
    hide Graph.Predecessors;
    InitialFrontier(g, inputs);
    RootElements(g);
    SortedDistinct(g.Roots());
    forall n | n in g.nodes ensures Punctual(g, Initial(g, inputs), n) {}
  }

  lemma StepPunctual(g: Graph, beh: Behaviour, s: State, t: State)
    requires g.Valid() && Frontier(g, s) && AllPunctual(g, s) && s.awaiting == map[] && WaveStep(g, beh, s, t)
    ensures AllPunctual(g, t) && if t.failures == [] then Frontier(g, t) else t.ready == []
  {
    hide Frontier;
    WaveShape(g, beh, s, t);
    forall m | m in g.nodes ensures Moves(s, t, m) { WaveMoves(g, beh, s, t, m); }
    hide WaveStep;
    hide Moves;
    forall n | n in g.nodes ensures Punctual(g, t, n) { NodePunctual(g, s, t, n); }
  }

  lemma PunctualWave(g: Graph, s: State, n: Id)
    requires AllPunctual(g, s) && n in g.nodes && !s.runs[n].status.Pending?
    ensures s.runs[n].wave == Some(WaveBySources(g, s.runs, n))
  {
    assert Punctual(g, s, n);
    if g.In(n) != {} {
      hide LastSource;
      var w := s.runs[n].wave.value;
      LastSourceIsGreatest(g, s.runs, n, if s.runs[n].status.Skipped? then w else w - 1);
    }
  }

  /** In a run without questions, failed or not, every decided node was decided in exactly this wave: a root
      in the first, any other node with its last predecessor if it was skipped, and one wave later if not. */
  lemma WaveExact(g: Graph, beh: Behaviour, durable: bool, inputs: Outputs, trace: seq<World>, n: Id)
    requires g.Valid() && Scheduler.Driven(g, beh, durable, World(Initial(g, inputs), None), trace)
    requires trace[|trace| - 1].state.awaiting == map[]
    requires n in g.nodes
    ensures var s := trace[|trace| - 1].state;
            n in s.runs && (!s.runs[n].status.Pending? ==> s.runs[n].wave == Some(WaveBySources(g, s.runs, n)))
  {
    hide Punctual;
    hide Frontier;
    hide WaveBySources;
    RunPunctual(g, beh, durable, inputs, trace);
    var s := trace[|trace| - 1].state;
    if !s.runs[n].status.Pending? { PunctualWave(g, s, n); }
  }

  // ------------------------------------------------------------ the waves of a plan

  const IDLE := Returned(map[], None)

  /** What each node does, whatever it is shown. */
  type Plan = map<Id, Outcome>

  function Steady(plan: Plan): Behaviour { (n, c) => if n in plan then plan[n] else IDLE }

  /** The record of a dispatched node, its wave apart. */
  function Verdict(g: Graph, plan: Plan, n: Id): NodeRun
    requires n in g.nodes
  {
    Finished(g, n, None, if n in plan then plan[n] else IDLE)
  }

  /** Nobody asks, and no failure goes unabsorbed. */
  ghost predicate Harmless(g: Graph, plan: Plan) {
    plan.Keys == g.nodes.Keys && forall n :: n in g.nodes ==> !plan[n].Asks? && !Verdict(g, plan, n).Fatal()
  }

  predicate TakenAs(g: Graph, rec: NodeRun, e: Edge)
    requires e.source in g.nodes
  {
    EdgeTaken(g.nodes[e.source].retry, e, rec.branch, false, rec.status.Failed?)
  }

  /** Under this plan no edge to `n` is taken, although there are some. */
  ghost predicate SkippedBy(g: Graph, plan: Plan, n: Id)
    requires g.Valid() && g.Acyclic() && n in g.nodes
    decreases g.Rank(n)
  {
    && g.In(n) != {}
    && forall e :: e in g.In(n) ==>
         (EdgeRaisesRank(g, e); SkippedBy(g, plan, e.source) || !TakenAs(g, Verdict(g, plan, e.source), e))
  }

  /** The wave in which this plan decides `n`. */
  ghost function WaveUnder(g: Graph, plan: Plan, n: Id): (w: nat)
    requires g.Valid() && g.Acyclic() && n in g.nodes
    decreases g.Rank(n)
  {
    if g.In(n) == {} then 1
    else
      (if SkippedBy(g, plan, n) then 0 else 1) +
      Greatest(set e | e in g.In(n) :: (EdgeRaisesRank(g, e); WaveUnder(g, plan, e.source)))
  }

  /** The nodes that this plan dispatches in wave `k`. */
  ghost function DueUnder(g: Graph, plan: Plan, k: nat): set<Id>
    requires g.Valid() && g.Acyclic()
  {
    set n | n in g.nodes && !SkippedBy(g, plan, n) && WaveUnder(g, plan, n) == k
  }

  /** The last predecessor of `n` is decided in wave `last`. */
  ghost predicate LastUnder(g: Graph, plan: Plan, n: Id, last: nat)
    requires g.Valid() && g.Acyclic()
  {
    && (forall e :: e in g.In(n) ==> WaveUnder(g, plan, e.source) <= last)
    && exists e :: e in g.In(n) && WaveUnder(g, plan, e.source) == last
  }

  lemma WaveUnderIff(g: Graph, plan: Plan, n: Id, last: nat)
    requires g.Valid() && g.Acyclic() && n in g.nodes && g.In(n) != {}
    ensures LastUnder(g, plan, n, last) <==>
              WaveUnder(g, plan, n) == (if SkippedBy(g, plan, n) then 0 else 1) + last
  {
    hide SkippedBy;
    var waves := set e | e in g.In(n) :: WaveUnder(g, plan, e.source);
    var some :| some in g.In(n);
    assert WaveUnder(g, plan, some.source) in waves;
    var top := Greatest(waves);
    assert WaveUnder(g, plan, n) == (if SkippedBy(g, plan, n) then 0 else 1) + top;
    hide WaveUnder;
    forall e | e in g.In(n) ensures WaveUnder(g, plan, e.source) <= top {
      assert WaveUnder(g, plan, e.source) in waves;
    }
  }

  // ------------------------------------------------------------ every run follows a plan

  /** The record of a node that ran is what the plan makes of it. */
  ghost predicate Follows(g: Graph, plan: Plan, runs: map<Id, NodeRun>) {
    forall n :: n in g.nodes && n in runs && !runs[n].status.Pending? && !runs[n].status.Skipped? ==>
      runs[n] == Verdict(g, plan, n).(wave := runs[n].wave)
  }

  lemma TakesAsPlanned(g: Graph, plan: Plan, runs: map<Id, NodeRun>, e: Edge)
    requires g.Valid() && g.Acyclic() && e in g.edges && SettledIn(runs, e.source) && Follows(g, plan, runs)
    requires SkippedBy(g, plan, e.source) <==> runs[e.source].status.Skipped?
    ensures Takes(g, runs, e) <==> !SkippedBy(g, plan, e.source) && TakenAs(g, Verdict(g, plan, e.source), e)
  {
    hide SkippedBy;
    hide Verdict;
    hide Graph.Acyclic;
  }

  lemma SkippedAsPlanned(g: Graph, plan: Plan, runs: map<Id, NodeRun>, n: Id)
    requires g.Valid() && g.Acyclic() && n in g.nodes && Justified(g, runs) && !runs[n].status.Pending?
    requires forall e :: e in g.In(n) ==>
               (Takes(g, runs, e) <==> !SkippedBy(g, plan, e.source) && TakenAs(g, Verdict(g, plan, e.source), e))
    ensures SkippedBy(g, plan, n) <==> runs[n].status.Skipped?
  {
    hide Verdict;
    hide TakenAs;
    hide Takes;
    hide Graph.Acyclic;
  }

  lemma {:induction false} DecidedAsPlanned(g: Graph, plan: Plan, s: State, n: Id)
    requires g.Valid() && g.Acyclic() && AllPunctual(g, s) && Justified(g, s.runs) && Follows(g, plan, s.runs)
    requires n in g.nodes && !s.runs[n].status.Pending?
    ensures SkippedBy(g, plan, n) <==> s.runs[n].status.Skipped?
    ensures s.runs[n].wave == Some(WaveUnder(g, plan, n))
    decreases g.Rank(n)
  {
    hide WaveUnder;
    hide SkippedBy;
    hide TakenAs;
    hide Takes;
    hide Verdict;
    hide Follows;
    hide Graph.Acyclic;
    forall e | e in g.In(n)
      ensures SettledIn(s.runs, e.source) && s.runs[e.source].wave == Some(WaveUnder(g, plan, e.source))
      ensures Takes(g, s.runs, e) <==>
                !SkippedBy(g, plan, e.source) && TakenAs(g, Verdict(g, plan, e.source), e)
    {
      EdgeRaisesRank(g, e);
      DecidedAsPlanned(g, plan, s, e.source);
      TakesAsPlanned(g, plan, s.runs, e);
    }
    SkippedAsPlanned(g, plan, s.runs, n);
    WaveAsPlanned(g, plan, s, n);
  }

  lemma WaveAsPlanned(g: Graph, plan: Plan, s: State, n: Id)
    requires g.Valid() && g.Acyclic() && AllPunctual(g, s) && n in g.nodes && !s.runs[n].status.Pending?
    requires SkippedBy(g, plan, n) <==> s.runs[n].status.Skipped?
    requires forall e :: e in g.In(n) ==>
               e.source in s.runs && s.runs[e.source].wave == Some(WaveUnder(g, plan, e.source))
    ensures s.runs[n].wave == Some(WaveUnder(g, plan, n))
  {
    hide WaveUnder;
    hide SkippedBy;
    hide Graph.Acyclic;
    assert Punctual(g, s, n);
    if g.In(n) == {} {
      RootUnder(g, plan, n);
    } else {
      var w := s.runs[n].wave.value;
      var last := if s.runs[n].status.Skipped? then w else w - 1;
      assert LastUnder(g, plan, n, last);
      WaveUnderIff(g, plan, n, last);
    }
  }

  lemma RootUnder(g: Graph, plan: Plan, n: Id)
    requires g.Valid() && g.Acyclic() && n in g.nodes && g.In(n) == {}
    ensures WaveUnder(g, plan, n) == 1 && !SkippedBy(g, plan, n)
  {}

  /** A node with a taken edge is dispatched in the wave after its last predecessor's. */
  lemma DispatchedAfter(g: Graph, plan: Plan, n: Id, taken: Edge, last: nat)
    requires g.Valid() && g.Acyclic() && n in g.nodes && LastUnder(g, plan, n, last) && taken in g.In(n)
    requires !SkippedBy(g, plan, taken.source) && TakenAs(g, Verdict(g, plan, taken.source), taken)
    ensures n in DueUnder(g, plan, last + 1)
  {
    hide WaveUnder;
    hide TakenAs;
    hide Verdict;
    hide Graph.Acyclic;
    WaveUnderIff(g, plan, n, last);
  }

  lemma DueAsPlanned(g: Graph, plan: Plan, s: State, n: Id)
    requires g.Valid() && g.Acyclic() && AllPunctual(g, s) && Frontier(g, s) && Follows(g, plan, s.runs)
    requires n in s.ready
    ensures n in DueUnder(g, plan, s.waves + 1)
  {
    hide WaveUnder;
    hide SkippedBy;
    hide Frontier;
    hide Verdict;
    hide TakenAs;
    hide Takes;
    hide Justified;
    hide Follows;
    hide Graph.Acyclic;
    FrontierJustified(g, s);
    FrontierBatch(g, s);
    assert n in Elements(s.ready);
    assert Punctual(g, s, n);
    if g.In(n) == {} {
      RootUnder(g, plan, n);
    } else {
      var taken := DueIsEntered(g, s, n);
      forall e | e in g.In(n) ensures s.runs[e.source].wave == Some(WaveUnder(g, plan, e.source)) {
        DueSources(g, s, n);
        DecidedAsPlanned(g, plan, s, e.source);
      }
      hide DueUnder;
      DecidedAsPlanned(g, plan, s, taken.source);
      TakesAsPlanned(g, plan, s.runs, taken);
      assert LastUnder(g, plan, n, s.waves);
      DispatchedAfter(g, plan, n, taken, s.waves);
    }
  }

  lemma DueIsEntered(g: Graph, s: State, n: Id) returns (e: Edge)
    requires Frontier(g, s) && n in s.ready && n in g.nodes && g.In(n) != {}
    ensures e in g.In(n) && Takes(g, s.runs, e) && SettledIn(s.runs, e.source)
  {
    assert n in Elements(s.ready);
    assert Placed(g, s, Elements(s.ready), {}, n) && Exact(g, s, {}, n);
    e :| e in TakenIn(g, s.runs, {}, n);
  }

  /** Something else than a question explains the record. */
  ghost predicate Explained(g: Graph, n: Id, rec: NodeRun)
    requires n in g.nodes
  {
    rec.status.Pending? || rec.status.Skipped? || exists o: Outcome :: !o.Asks? && rec == Finished(g, n, rec.wave, o)
  }

  ghost function Explanation(g: Graph, n: Id, rec: NodeRun): (o: Outcome)
    requires n in g.nodes && Explained(g, n, rec)
    ensures !o.Asks?
    ensures rec.status.Pending? || rec.status.Skipped? || rec == Finished(g, n, rec.wave, o)
  {
    if rec.status.Pending? || rec.status.Skipped? then IDLE
    else
      var o: Outcome :| !o.Asks? && rec == Finished(g, n, rec.wave, o);
      o
  }

  lemma FinishedTimeless(g: Graph, n: Id, wave: Option<nat>, o: Outcome)
    requires n in g.nodes
    ensures Finished(g, n, wave, o) == Finished(g, n, None, o).(wave := wave)
  {}

  /** A plan that makes the same of every node that ran. */
  lemma PlanOf(g: Graph, s: State) returns (plan: Plan)
    requires Calm(s) && s.runs.Keys == g.nodes.Keys && forall n :: n in g.nodes ==> Explained(g, n, s.runs[n])
    ensures Harmless(g, plan) && Follows(g, plan, s.runs)
  {
    plan := map n | n in g.nodes :: Explanation(g, n, s.runs[n]);
    forall n | n in g.nodes
      ensures !plan[n].Asks? && !Verdict(g, plan, n).Fatal()
      ensures !s.runs[n].status.Pending? && !s.runs[n].status.Skipped? ==>
                s.runs[n] == Verdict(g, plan, n).(wave := s.runs[n].wave)
    {
      FinishedTimeless(g, n, s.runs[n].wave, plan[n]);
    }
  }

  lemma StepExplained(g: Graph, beh: Behaviour, s: State, t: State, n: Id)
    requires Frontier(g, s) && WaveStep(g, beh, s, t) && t.awaiting == map[] && n in g.nodes && n in s.runs
    requires Explained(g, n, s.runs[n])
    ensures n in t.runs && Explained(g, n, t.runs[n])
  {
    hide WaveStep;
    hide Frontier;
    hide OutcomeOf;
    hide Engine.Finished;
    RecordMoves(g, beh, s, t, n);
    if n in s.ready {
      NodeAfterWave(g, beh, s, n);
      NobodyAsked(g, beh, s, t, n);
      FinishedWave(g, n, Some(s.waves + 1), OutcomeOf(g, beh, s, n));
    }
  }

  lemma AskedAwaits(g: Graph, beh: Behaviour, s: State, n: Id)
    requires n in s.ready && OutcomeOf(g, beh, s, n).Asks?
    ensures n in Published(Gathered(g, beh, s), s.ready).awaiting
  {
    hide RecordAfter;
    hide OutcomeOf;
  }

  lemma NobodyAsked(g: Graph, beh: Behaviour, s: State, t: State, n: Id)
    requires WaveStep(g, beh, s, t) && t.awaiting == map[] && n in s.ready
    ensures !OutcomeOf(g, beh, s, n).Asks?
  {
    hide Frontier;
    hide Gathered;
    hide Published;
    hide FatalOf;
    hide OutcomeOf;
    if OutcomeOf(g, beh, s, n).Asks? { AskedAwaits(g, beh, s, n); }
  }

  lemma {:induction false} RunExplained(
    g: Graph, beh: Behaviour, durable: bool, inputs: Outputs, trace: seq<World>, n: Id)
    requires g.Valid() && Scheduler.Driven(g, beh, durable, World(Initial(g, inputs), None), trace)
    requires trace[|trace| - 1].state.awaiting == map[] && n in g.nodes
    ensures var s := trace[|trace| - 1].state; n in s.runs && Explained(g, n, s.runs[n])
    decreases |trace|
  {
    hide Frontier;
    hide Explained;
    hide Punctual;
    if |trace| == 1 {
      assert Explained(g, n, FRESH) by { ExplainedFresh(g, n); }
    } else {
      var before := trace[..|trace| - 1];
      var s, t := before[|before| - 1].state, trace[|trace| - 1].state;
      StepOnTime(g, beh, s, t);
      RunPunctual(g, beh, durable, inputs, before);
      RunExplained(g, beh, durable, inputs, before, n);
      StepExplained(g, beh, s, t, n);
    }
  }

  lemma ExplainedFresh(g: Graph, n: Id)
    requires n in g.nodes
    ensures Explained(g, n, FRESH)
  {}

  lemma StatePlanned(g: Graph, s: State) returns (plan: Plan)
    requires g.Valid() && g.Acyclic() && AllPunctual(g, s) && Frontier(g, s)
    requires forall n :: n in g.nodes ==> Explained(g, n, s.runs[n])
    ensures Harmless(g, plan) && Elements(s.ready) <= DueUnder(g, plan, s.waves + 1) && Distinct(s.ready)
  {
    hide Tally;
    hide Calm;
    hide Punctual;
    hide DueUnder;
    hide Explained;
    hide Harmless;
    hide Graph.Acyclic;
    plan := PlanOf(g, s);
    forall n | n in s.ready ensures n in DueUnder(g, plan, s.waves + 1) { DueAsPlanned(g, plan, s, n); }
    CalmDistinct(s);
  }

  /** Whatever the nodes do: the nodes due in a run without questions are due together under some plan. */
  lemma BatchIsPlanned(g: Graph, beh: Behaviour, durable: bool, inputs: Outputs, trace: seq<World>)
      returns (plan: Plan)
    requires g.Valid() && g.Acyclic() && Scheduler.Driven(g, beh, durable, World(Initial(g, inputs), None), trace)
    requires var s := trace[|trace| - 1].state; s.awaiting == map[] && s.failures == []
    ensures var s := trace[|trace| - 1].state;
            Harmless(g, plan) && Elements(s.ready) <= DueUnder(g, plan, s.waves + 1) && Distinct(s.ready)
  {
    hide Frontier;
    hide Punctual;
    hide DueUnder;
    hide Explained;
    hide Harmless;
    hide WaveStep;
    hide Initial;
    hide Graph.Acyclic;
    var s := trace[|trace| - 1].state;
    RunPunctual(g, beh, durable, inputs, trace);
    forall n | n in g.nodes ensures Explained(g, n, s.runs[n]) {
      RunExplained(g, beh, durable, inputs, trace, n);
    }
    plan := StatePlanned(g, s);
  }

  lemma CalmDistinct(s: State)
    requires Calm(s)
    ensures Distinct(s.ready)
  {}

  // ------------------------------------------------------------ every plan has its run

  /** The records after `j` waves under the plan. */
  ghost function RunsUnder(g: Graph, plan: Plan, j: nat): map<Id, NodeRun>
    requires g.Valid() && g.Acyclic()
  {
    map n | n in g.nodes :: RecordUnder(g, plan, n, j)
  }

  ghost function RecordUnder(g: Graph, plan: Plan, n: Id, j: nat): NodeRun
    requires g.Valid() && g.Acyclic() && n in g.nodes
  {
    var w := WaveUnder(g, plan, n);
    if w > j then FRESH
    else if SkippedBy(g, plan, n) then FRESH.(status := NodeStatus.Skipped, wave := Some(w))
    else Verdict(g, plan, n).(wave := Some(w))
  }

  ghost function Picked(ids: seq<Id>, keep: set<Id>): seq<Id> {
    if ids == [] then [] else (if ids[0] in keep then [ids[0]] else []) + Picked(ids[1..], keep)
  }

  lemma {:induction false} PickedElements(ids: seq<Id>, keep: set<Id>)
    ensures forall n :: n in Picked(ids, keep) <==> n in ids && n in keep
    ensures Distinct(ids) ==> Distinct(Picked(ids, keep))
  {
    if ids != [] { PickedElements(ids[1..], keep); }
  }

  ghost function QueueUnder(g: Graph, plan: Plan, k: nat): seq<Id>
    requires g.Valid() && g.Acyclic()
  {
    Sorted(Picked(g.ids, DueUnder(g, plan, k)))
  }

  lemma QueueElements(g: Graph, plan: Plan, k: nat)
    requires g.Valid() && g.Acyclic()
    ensures Elements(QueueUnder(g, plan, k)) == DueUnder(g, plan, k)
    ensures Distinct(QueueUnder(g, plan, k)) && Ascending(QueueUnder(g, plan, k))
  {
    hide DueUnder;
    hide Sorted;
    var picked := Picked(g.ids, DueUnder(g, plan, k));
    PickedElements(g.ids, DueUnder(g, plan, k));
    SortedDistinct(picked);
    assert DueUnder(g, plan, k) <= g.nodes.Keys by { DueAreNodes(g, plan, k); }
  }

  lemma DueAreNodes(g: Graph, plan: Plan, k: nat)
    requires g.Valid() && g.Acyclic()
    ensures DueUnder(g, plan, k) <= g.nodes.Keys
  {
    hide SkippedBy;
    hide WaveUnder;
  }

  ghost function StateUnder(g: Graph, plan: Plan, inputs: Outputs, j: nat): State
    requires g.Valid() && g.Acyclic()
  {
    if j == 0 then Initial(g, inputs)
    else
      var s := StateUnder(g, plan, inputs, j - 1);
      Settle(g, plan, Published(Gathered(g, Steady(plan), s), s.ready), j)
  }

  /** The wave's skips, counts and queue. */
  ghost function Settle(g: Graph, plan: Plan, mid: State, j: nat): State
    requires g.Valid() && g.Acyclic()
  {
    var runs := RunsUnder(g, plan, j);
    mid.(runs := runs,
         pending := map n | n in g.nodes :: |Uncounted(g, runs, {}, n)|,
         taken := map n | n in g.nodes :: |TakenIn(g, runs, {}, n)|,
         ready := QueueUnder(g, plan, j + 1))
  }

  ghost predicate AsPlanned(g: Graph, plan: Plan, s: State, j: nat)
    requires g.Valid() && g.Acyclic()
  {
    && s.runs == RunsUnder(g, plan, j) && s.waves == j && s.awaiting == map[] && s.failures == []
    && Elements(s.ready) == DueUnder(g, plan, j + 1) && Distinct(s.ready)
    && Tallied(g, s)
  }

  ghost predicate Tallied(g: Graph, s: State) {
    && s.pending.Keys == s.taken.Keys == g.nodes.Keys
    && forall n {:trigger s.pending[n]} :: n in g.nodes ==>
         s.pending[n] == |Uncounted(g, s.runs, {}, n)| && s.taken[n] == |TakenIn(g, s.runs, {}, n)|
  }

  lemma WavePositive(g: Graph, plan: Plan, n: Id)
    requires g.Valid() && g.Acyclic() && n in g.nodes
    ensures WaveUnder(g, plan, n) >= 1
    decreases g.Rank(n)
  {
    if g.In(n) != {} {
      var e :| e in g.In(n);
      EdgeRaisesRank(g, e);
      WavePositive(g, plan, e.source);
      var last := LastOf(g, plan, n);
      assert WaveUnder(g, plan, e.source) <= last;
    }
  }

  /** The wave of the last predecessor. */
  lemma LastOf(g: Graph, plan: Plan, n: Id) returns (last: nat)
    requires g.Valid() && g.Acyclic() && n in g.nodes && g.In(n) != {}
    ensures LastUnder(g, plan, n, last)
    ensures WaveUnder(g, plan, n) == (if SkippedBy(g, plan, n) then 0 else 1) + last
  {
    hide SkippedBy;
    last := Greatest(set e | e in g.In(n) :: WaveUnder(g, plan, e.source));
    WaveUnderIff(g, plan, n, last);
  }

  /** A source is settled once its wave is over. */
  lemma CountedUnder(g: Graph, plan: Plan, j: nat, e: Edge)
    requires g.Valid() && g.Acyclic() && Harmless(g, plan) && e in g.edges
    ensures Counted(RunsUnder(g, plan, j), {}, e) <==> WaveUnder(g, plan, e.source) <= j
    ensures Counted(RunsUnder(g, plan, j), {}, e) ==>
              (Takes(g, RunsUnder(g, plan, j), e) <==>
                 !SkippedBy(g, plan, e.source) && TakenAs(g, Verdict(g, plan, e.source), e))
  {
    hide SkippedBy;
    hide WaveUnder;
    hide Graph.Acyclic;
    hide Engine.Finished;
    PlannedStatus(g, plan, e.source);
  }

  lemma PlannedStatus(g: Graph, plan: Plan, n: Id)
    requires Harmless(g, plan) && n in g.nodes
    ensures Verdict(g, plan, n).Ran() && Verdict(g, plan, n).status in {Completed, Failed}
  {
    FinishedStatus(g, n, None, plan[n]);
    hide Engine.Finished;
  }

  /** Which edges to `n` are still to be counted after `j` waves, and which of the others were taken. */
  ghost predicate EdgesUnder(g: Graph, plan: Plan, runs: map<Id, NodeRun>, j: nat, n: Id)
    requires g.Valid() && g.Acyclic()
  {
    forall e :: e in g.In(n) ==>
      && (e in Uncounted(g, runs, {}, n) <==> WaveUnder(g, plan, e.source) > j)
      && (WaveUnder(g, plan, e.source) <= j ==>
            (e in TakenIn(g, runs, {}, n) <==>
               !SkippedBy(g, plan, e.source) && TakenAs(g, Verdict(g, plan, e.source), e)))
  }

  lemma EdgesAsPlanned(g: Graph, plan: Plan, j: nat, n: Id)
    requires g.Valid() && g.Acyclic() && Harmless(g, plan) && n in g.nodes
    ensures EdgesUnder(g, plan, RunsUnder(g, plan, j), j, n)
  {
    hide WaveUnder;
    hide SkippedBy;
    hide TakenAs;
    hide Verdict;
    hide Harmless;
    hide RunsUnder;
    hide Takes;
    hide Counted;
    hide Graph.Acyclic;
    forall e | e in g.In(n)
      ensures Counted(RunsUnder(g, plan, j), {}, e) <==> WaveUnder(g, plan, e.source) <= j
      ensures Counted(RunsUnder(g, plan, j), {}, e) ==>
                (Takes(g, RunsUnder(g, plan, j), e) <==>
                   !SkippedBy(g, plan, e.source) && TakenAs(g, Verdict(g, plan, e.source), e))
    {
      CountedUnder(g, plan, j, e);
    }
  }

  lemma PlacedUnder(g: Graph, plan: Plan, s: State, j: nat, n: Id)
    requires g.Valid() && g.Acyclic() && Harmless(g, plan) && AsPlanned(g, plan, s, j) && n in g.nodes
    ensures Placed(g, s, Elements(s.ready), {}, n)
  {
    hide WaveUnder;
    hide SkippedBy;
    hide Verdict;
    hide Harmless;
    hide EdgesUnder;
    hide Uncounted;
    hide TakenIn;
    hide Graph.Acyclic;
    PlannedStatus(g, plan, n);
    WavePositive(g, plan, n);
    EdgesAsPlanned(g, plan, j, n);
    assert s.pending[n] == |Uncounted(g, s.runs, {}, n)| && s.taken[n] == |TakenIn(g, s.runs, {}, n)|;
    if g.In(n) == {} {
      RootUnder(g, plan, n);
      NoEdges(g, s.runs, n);
    } else {
      var last := LastOf(g, plan, n);
      AllCountedUnder(g, plan, s, j, n, last);
      if last <= j { EnteredUnder(g, plan, s, j, n, last); }
    }
  }

  lemma NoEdges(g: Graph, runs: map<Id, NodeRun>, n: Id)
    requires g.In(n) == {}
    ensures Uncounted(g, runs, {}, n) == {} && TakenIn(g, runs, {}, n) == {}
  {
    assert forall e :: e in g.edges && e.target == n ==> e in g.In(n);
  }

  lemma AllCountedUnder(g: Graph, plan: Plan, s: State, j: nat, n: Id, last: nat)
    requires g.Valid() && g.Acyclic() && n in g.nodes && LastUnder(g, plan, n, last)
    requires EdgesUnder(g, plan, s.runs, j, n)
    ensures |Uncounted(g, s.runs, {}, n)| == 0 <==> last <= j
  {
    hide WaveUnder;
    hide Graph.Acyclic;
    if last <= j {
      assert Uncounted(g, s.runs, {}, n) == {};
    } else {
      var e :| e in g.In(n) && WaveUnder(g, plan, e.source) == last;
      assert e in Uncounted(g, s.runs, {}, n);
    }
  }

  lemma EnteredUnder(g: Graph, plan: Plan, s: State, j: nat, n: Id, last: nat)
    requires g.Valid() && g.Acyclic() && n in g.nodes && LastUnder(g, plan, n, last) && last <= j
    requires g.In(n) != {} && EdgesUnder(g, plan, s.runs, j, n)
    ensures |TakenIn(g, s.runs, {}, n)| == 0 <==> SkippedBy(g, plan, n)
  {
    hide WaveUnder;
    hide TakenAs;
    hide Graph.Acyclic;
    if SkippedBy(g, plan, n) {
      assert TakenIn(g, s.runs, {}, n) == {};
    } else {
      var e :| e in g.In(n) && !SkippedBy(g, plan, e.source) && TakenAs(g, Verdict(g, plan, e.source), e);
      assert e in TakenIn(g, s.runs, {}, n);
    }
  }

  lemma CalmNode(g: Graph, plan: Plan, n: Id, j: nat)
    requires g.Valid() && g.Acyclic() && Harmless(g, plan) && n in g.nodes
    ensures var rec := RecordUnder(g, plan, n, j);
            !rec.status.Running? && !rec.Fatal() && !rec.status.Paused?
  {
    hide WaveUnder;
    hide SkippedBy;
    hide Verdict;
    PlannedStatus(g, plan, n);
  }

  lemma CalmUnder(g: Graph, plan: Plan, s: State, j: nat)
    requires g.Valid() && g.Acyclic() && Harmless(g, plan) && AsPlanned(g, plan, s, j)
    ensures Calm(s)
  {
    hide RecordUnder;
    hide Harmless;
    hide DueUnder;
    hide Graph.Valid;
    hide Graph.Acyclic;
    hide Tallied;
    hide Elements;
    forall n | n in s.runs
      ensures !s.runs[n].status.Running? && !s.runs[n].Fatal() && !s.runs[n].status.Paused?
    {
      CalmNode(g, plan, n, j);
    }
  }

  lemma ExactUnder(g: Graph, plan: Plan, s: State, j: nat, n: Id)
    requires g.Valid() && g.Acyclic() && AsPlanned(g, plan, s, j) && n in g.nodes
    ensures Domains(g, s) && Exact(g, s, {}, n)
  {
    hide WaveUnder;
    hide SkippedBy;
    hide Uncounted;
    hide TakenIn;
    hide RecordUnder;
    hide DueUnder;
    hide Graph.Acyclic;
    assert s.pending[n] == |Uncounted(g, s.runs, {}, n)| && s.taken[n] == |TakenIn(g, s.runs, {}, n)|;
  }

  lemma FrontierUnder(g: Graph, plan: Plan, s: State, j: nat)
    requires g.Valid() && g.Acyclic() && Harmless(g, plan) && AsPlanned(g, plan, s, j)
    ensures Frontier(g, s)
  {
    hide WaveUnder;
    hide SkippedBy;
    hide Graph.Valid;
    hide Placed;
    hide Exact;
    hide Graph.Acyclic;
    hide Harmless;
    hide RecordUnder;
    CalmUnder(g, plan, s, j);
    hide Calm;
    DueAreNodes(g, plan, j + 1);
    hide DueUnder;
    assert Domains(g, s) && Elements(s.ready) <= g.nodes.Keys;
    forall n | n in g.nodes ensures Exact(g, s, {}, n) && Placed(g, s, Elements(s.ready), {}, n) {
      ExactUnder(g, plan, s, j, n);
      PlacedUnder(g, plan, s, j, n);
    }
    hide AsPlanned;
  }

  lemma StartNode(g: Graph, plan: Plan, n: Id)
    requires g.Valid() && g.Acyclic() && n in g.nodes
    ensures RecordUnder(g, plan, n, 0) == FRESH
    ensures n in DueUnder(g, plan, 1) <==> g.In(n) == {}
  {
    hide WaveUnder;
    hide SkippedBy;
    hide Graph.Acyclic;
    WavePositive(g, plan, n);
    FirstUnder(g, plan, n);
  }

  lemma StartCounts(g: Graph, inputs: Outputs)
    requires g.Valid()
    ensures Tallied(g, Initial(g, inputs))
  {
    hide Initial;
    hide Calm;
    hide Placed;
    hide Uncounted;
    hide TakenIn;
    InitialFrontier(g, inputs);
    var s := Initial(g, inputs);
    forall n | n in g.nodes
      ensures s.pending[n] == |Uncounted(g, s.runs, {}, n)| && s.taken[n] == |TakenIn(g, s.runs, {}, n)|
    {
      assert Exact(g, s, {}, n);
    }
  }

  lemma StartUnder(g: Graph, plan: Plan, inputs: Outputs)
    requires g.Valid() && g.Acyclic()
    ensures AsPlanned(g, plan, StateUnder(g, plan, inputs, 0), 0)
  {
    hide WaveUnder;
    hide SkippedBy;
    hide Sorted;
    hide Graph.Roots;
    hide Graph.Predecessors;
    hide RecordUnder;
    hide Graph.Acyclic;
    hide Tallied;
    var s := Initial(g, inputs);
    StartCounts(g, inputs);
    RootElements(g);
    SortedDistinct(g.Roots());
    DueAreNodes(g, plan, 1);
    hide DueUnder;
    forall n | n in g.nodes
      ensures RecordUnder(g, plan, n, 0) == FRESH
      ensures n in DueUnder(g, plan, 1) <==> n in s.ready
    {
      StartNode(g, plan, n);
    }
    assert s.runs == RunsUnder(g, plan, 0);
    assert Elements(s.ready) == DueUnder(g, plan, 1);
  }

  /** Only roots are due in the first wave. */
  lemma FirstUnder(g: Graph, plan: Plan, n: Id)
    requires g.Valid() && g.Acyclic() && n in g.nodes
    ensures !SkippedBy(g, plan, n) && WaveUnder(g, plan, n) == 1 <==> g.In(n) == {}
  {
    hide WaveUnder;
    hide Graph.Acyclic;
    if g.In(n) == {} {
      RootUnder(g, plan, n);
    } else {
      var last := LastOf(g, plan, n);
      var e :| e in g.In(n) && WaveUnder(g, plan, e.source) == last;
      WavePositive(g, plan, e.source);
    }
  }

  lemma PlannedFacts(g: Graph, plan: Plan, s: State, j: nat)
    requires g.Valid() && g.Acyclic() && AsPlanned(g, plan, s, j)
    ensures s.runs.Keys == g.nodes.Keys && s.waves == j && s.awaiting == map[] && s.failures == []
    ensures forall n :: n in g.nodes ==> s.runs[n] == RecordUnder(g, plan, n, j)
    ensures forall n :: n in s.ready <==> n in DueUnder(g, plan, j + 1)
  {
    hide RecordUnder;
    hide DueUnder;
    hide Uncounted;
    hide TakenIn;
    assert forall n :: n in s.ready <==> n in Elements(s.ready);
  }

  /** The wave from one planned state, before it is drained. */
  lemma NobodyAsks(g: Graph, plan: Plan, s: State)
    requires Harmless(g, plan) && s.awaiting == map[] && forall n :: n in s.ready ==> n in g.nodes
    ensures Gathered(g, Steady(plan), s).awaiting == map[]
  {
    hide Verdict;
    hide RecordAfter;
    forall n | n in s.ready ensures !OutcomeOf(g, Steady(plan), s, n).Asks? {}
    hide OutcomeOf;
  }

  lemma MidShape(g: Graph, plan: Plan, s: State, j: nat)
    requires g.Valid() && g.Acyclic() && Harmless(g, plan) && AsPlanned(g, plan, s, j)
    ensures var mid := Published(Gathered(g, Steady(plan), s), s.ready);
            && mid.runs.Keys == g.nodes.Keys && mid.waves == j + 1 && mid.awaiting == map[]
            && mid.failures == [] && mid.ready == []
  {
    hide AsPlanned;
    hide RecordUnder;
    hide RecordAfter;
    hide OutcomeOf;
    hide RanOf;
    hide Harmless;
    hide Steady;
    hide Graph.Valid;
    hide Graph.Acyclic;
    PlannedFacts(g, plan, s, j);
    DueAreNodes(g, plan, j + 1);
    hide DueUnder;
    NobodyAsks(g, plan, s);
  }

  lemma MidIsRecordAfter(g: Graph, beh: Behaviour, s: State, n: Id)
    requires n in s.runs
    ensures var mid := Published(Gathered(g, beh, s), s.ready);
            n in mid.runs && mid.runs[n] == RecordAfter(g, beh, s, n)
  {
    hide RecordAfter;
    hide OutcomeOf;
  }

  lemma SteadyRecord(g: Graph, plan: Plan, s: State, n: Id)
    requires plan.Keys == g.nodes.Keys && n in g.nodes && n in s.runs && n in s.ready
    ensures RecordAfter(g, Steady(plan), s, n) == Finished(g, n, Some(s.waves + 1), plan[n])
    ensures Verdict(g, plan, n).(wave := Some(s.waves + 1)) == Finished(g, n, Some(s.waves + 1), plan[n])
  {
    FinishedTimeless(g, n, Some(s.waves + 1), plan[n]);
    hide Engine.Finished;
  }

  lemma MidRecord(g: Graph, plan: Plan, s: State, j: nat, n: Id)
    requires g.Valid() && g.Acyclic() && Harmless(g, plan) && AsPlanned(g, plan, s, j) && n in g.nodes
    ensures var mid := Published(Gathered(g, Steady(plan), s), s.ready);
            n in mid.runs &&
            mid.runs[n] == if n in DueUnder(g, plan, j + 1) then RecordUnder(g, plan, n, j + 1) else s.runs[n]
  {
    hide RecordUnder;
    hide DueUnder;
    hide Verdict;
    hide Gathered;
    hide Published;
    hide Steady;
    hide WaveUnder;
    hide SkippedBy;
    hide Graph.Valid;
    hide Graph.Acyclic;
    hide AsPlanned;
    PlannedFacts(g, plan, s, j);
    MidIsRecordAfter(g, Steady(plan), s, n);
    if n in s.ready {
      DueRecord(g, plan, n, j + 1);
      SteadyRecord(g, plan, s, n);
    }
  }

  lemma DueRecord(g: Graph, plan: Plan, n: Id, k: nat)
    requires g.Valid() && g.Acyclic() && n in DueUnder(g, plan, k)
    ensures n in g.nodes && RecordUnder(g, plan, n, k) == Verdict(g, plan, n).(wave := Some(k))
  {
    hide WaveUnder;
    hide SkippedBy;
  }

  /** Who is decided in wave `j + 1` without being due is skipped in it. */
  lemma LaterRecord(g: Graph, plan: Plan, n: Id, j: nat)
    requires g.Valid() && g.Acyclic() && n in g.nodes && n !in DueUnder(g, plan, j + 1)
    ensures var before, after := RecordUnder(g, plan, n, j), RecordUnder(g, plan, n, j + 1);
            || after == before
            || (before.status.Pending? && after == before.(status := NodeStatus.Skipped, wave := Some(j + 1)))
  {
    hide WaveUnder;
    hide SkippedBy;
  }

  lemma SettledTallied(g: Graph, plan: Plan, mid: State, j: nat)
    requires g.Valid() && g.Acyclic()
    ensures Tallied(g, Settle(g, plan, mid, j))
  {
    hide RunsUnder;
    hide QueueUnder;
    hide Uncounted;
    hide TakenIn;
    hide Graph.Acyclic;
  }

  /** What is left to show of a state once its wave is counted. */
  lemma SettledAsPlanned(g: Graph, plan: Plan, mid: State, j: nat)
    requires g.Valid() && g.Acyclic() && mid.waves == j && mid.awaiting == map[] && mid.failures == []
    ensures AsPlanned(g, plan, Settle(g, plan, mid, j), j)
  {
    hide RunsUnder;
    hide DueUnder;
    hide Uncounted;
    hide TakenIn;
    hide Tallied;
    hide QueueUnder;
    hide Elements;
    hide Distinct;
    hide Graph.Acyclic;
    SettledTallied(g, plan, mid, j);
    QueueElements(g, plan, j + 1);
  }

  lemma NextUnder(g: Graph, plan: Plan, s: State, j: nat)
    requires g.Valid() && g.Acyclic() && Harmless(g, plan) && AsPlanned(g, plan, s, j)
    ensures var t := Settle(g, plan, Published(Gathered(g, Steady(plan), s), s.ready), j + 1);
            AsPlanned(g, plan, t, j + 1)
  {
    hide AsPlanned;
    hide Settle;
    hide Gathered;
    hide Published;
    hide Harmless;
    hide Graph.Valid;
    hide Graph.Acyclic;
    MidShape(g, plan, s, j);
    SettledAsPlanned(g, plan, Published(Gathered(g, Steady(plan), s), s.ready), j + 1);
  }

  /** What a wave makes of one planned record. */
  lemma StepRecord(g: Graph, plan: Plan, s: State, j: nat, n: Id)
    requires g.Valid() && g.Acyclic() && Harmless(g, plan) && AsPlanned(g, plan, s, j) && n in g.nodes
    ensures var mid := Published(Gathered(g, Steady(plan), s), s.ready);
            n in mid.runs
            && (n in DueUnder(g, plan, j + 1) ==> mid.runs[n] == RecordUnder(g, plan, n, j + 1))
            && (|| RecordUnder(g, plan, n, j + 1) == mid.runs[n]
                || (mid.runs[n].status.Pending?
                    && RecordUnder(g, plan, n, j + 1)
                       == mid.runs[n].(status := NodeStatus.Skipped, wave := Some(j + 1))))
  {
    hide AsPlanned;
    hide RecordUnder;
    hide DueUnder;
    hide Gathered;
    hide Published;
    hide Harmless;
    hide Graph.Valid;
    hide Graph.Acyclic;
    PlannedFacts(g, plan, s, j);
    MidRecord(g, plan, s, j, n);
    if n !in DueUnder(g, plan, j + 1) { LaterRecord(g, plan, n, j); }
  }

  lemma StepUnder(g: Graph, plan: Plan, s: State, j: nat)
    requires g.Valid() && g.Acyclic() && Harmless(g, plan) && AsPlanned(g, plan, s, j) && s.ready != []
    ensures var t := Settle(g, plan, Published(Gathered(g, Steady(plan), s), s.ready), j + 1);
            WaveStep(g, Steady(plan), s, t)
  {
    hide AsPlanned;
    hide Gathered;
    hide DueUnder;
    hide RecordUnder;
    hide Frontier;
    hide Graph.Valid;
    hide Graph.Acyclic;
    hide FatalOf;
    hide Harmless;
    hide Published;
    hide Settle;
    var mid := Published(Gathered(g, Steady(plan), s), s.ready);
    var t := Settle(g, plan, mid, j + 1);
    PlannedFacts(g, plan, s, j);
    NextUnder(g, plan, s, j);
    PlannedFacts(g, plan, t, j + 1);
    FrontierUnder(g, plan, t, j + 1);
    MidShape(g, plan, s, j);
    DueAreNodes(g, plan, j + 1);
    forall n | n in g.nodes
      ensures n in DueUnder(g, plan, j + 1) ==> mid.runs[n] == RecordUnder(g, plan, n, j + 1)
      ensures || t.runs[n] == mid.runs[n]
              || (mid.runs[n].status.Pending?
                  && t.runs[n] == mid.runs[n].(status := NodeStatus.Skipped, wave := Some(mid.waves)))
    {
      StepRecord(g, plan, s, j, n);
    }
    assert Elements(s.ready) == DueUnder(g, plan, j + 1);
    NobodyFatal(g, plan, mid, s.ready, j);
    SettledShape(g, plan, mid, j + 1);
  }

  lemma SettledShape(g: Graph, plan: Plan, mid: State, j: nat)
    requires g.Valid() && g.Acyclic() && mid.ready == []
    ensures var t := Settle(g, plan, mid, j);
            && t == mid.(runs := t.runs, pending := t.pending, taken := t.taken, ready := t.ready)
            && mid.ready <= t.ready && Ascending(t.ready[|mid.ready|..])
  {
    hide Uncounted;
    hide TakenIn;
    hide RunsUnder;
    QueueElements(g, plan, j + 1);
    hide QueueUnder;
    var queue := QueueUnder(g, plan, j + 1);
    assert queue[0..] == queue;
  }

  lemma NobodyFatal(g: Graph, plan: Plan, mid: State, batch: seq<Id>, j: nat)
    requires g.Valid() && g.Acyclic() && Harmless(g, plan) && Elements(batch) == DueUnder(g, plan, j + 1)
    requires forall n :: n in DueUnder(g, plan, j + 1) ==> n in mid.runs && n in g.nodes
    requires forall n :: n in DueUnder(g, plan, j + 1) ==> mid.runs[n] == RecordUnder(g, plan, n, j + 1)
    ensures FatalOf(mid.runs, batch) == []
  {
    var fatal := FatalOf(mid.runs, batch);
    assert fatal == [] || fatal[0] in fatal;
    hide WaveUnder;
    hide SkippedBy;
    hide Graph.Valid;
    hide DueUnder;
    hide RecordUnder;
    hide Harmless;
    hide Verdict;
    hide Graph.Acyclic;
    FatalElements(mid.runs, batch);
    forall n | n in batch ensures n in mid.runs && !mid.runs[n].Fatal() {
      assert n in Elements(batch);
      DueRecord(g, plan, n, j + 1);
      PlannedStatus(g, plan, n);
    }
  }

  lemma {:induction false} StatesAsPlanned(g: Graph, plan: Plan, inputs: Outputs, j: nat)
    requires g.Valid() && g.Acyclic() && Harmless(g, plan)
    ensures AsPlanned(g, plan, StateUnder(g, plan, inputs, j), j)
  {
    hide AsPlanned;
    hide Settle;
    hide Gathered;
    hide Harmless;
    if j == 0 {
      StartUnder(g, plan, inputs);
    } else {
      StatesAsPlanned(g, plan, inputs, j - 1);
      NextUnder(g, plan, StateUnder(g, plan, inputs, j - 1), j - 1);
    }
  }

  /** If some node is decided in a wave, some node is dispatched in it. */
  lemma {:induction false} SomeoneDue(g: Graph, plan: Plan, n: Id, k: nat)
    requires g.Valid() && g.Acyclic() && n in g.nodes && WaveUnder(g, plan, n) == k
    ensures DueUnder(g, plan, k) != {}
    decreases g.Rank(n)
  {
    hide WaveUnder;
    if SkippedBy(g, plan, n) {
      var last := LastOf(g, plan, n);
      var e :| e in g.In(n) && WaveUnder(g, plan, e.source) == last;
      EdgeRaisesRank(g, e);
      SomeoneDue(g, plan, e.source, k);
    } else {
      assert n in DueUnder(g, plan, k);
    }
  }

  lemma DueBefore(g: Graph, plan: Plan, k: nat)
    requires g.Valid() && g.Acyclic() && k > 1 && DueUnder(g, plan, k) != {}
    ensures DueUnder(g, plan, k - 1) != {}
  {
    hide WaveUnder;
    hide SkippedBy;
    var n :| n in DueUnder(g, plan, k);
    FirstUnder(g, plan, n);
    if g.In(n) == {} {
      RootUnder(g, plan, n);
    } else {
      var last := LastOf(g, plan, n);
      var e :| e in g.In(n) && WaveUnder(g, plan, e.source) == last;
      SomeoneDue(g, plan, e.source, k - 1);
    }
  }

  /** The run of a plan, up to the state from which wave `j + 1` starts. */
  ghost function RunUnder(g: Graph, plan: Plan, inputs: Outputs, j: nat): seq<World>
    requires g.Valid() && g.Acyclic()
  {
    (if j == 0 then [] else RunUnder(g, plan, inputs, j - 1)) + [World(StateUnder(g, plan, inputs, j), None)]
  }

  lemma DrivenFrom(g: Graph, beh: Behaviour, w: World)
    ensures Scheduler.Driven(g, beh, false, w, [w])
  {
    hide WaveStep;
  }

  lemma {:induction false} PlanRuns(g: Graph, plan: Plan, inputs: Outputs, j: nat)
    requires g.Valid() && g.Acyclic() && Harmless(g, plan) && DueUnder(g, plan, j + 1) != {}
    ensures var trace := RunUnder(g, plan, inputs, j);
            && trace != [] && trace[|trace| - 1] == World(StateUnder(g, plan, inputs, j), None)
            && Scheduler.Driven(g, Steady(plan), false, World(Initial(g, inputs), None), trace)
  {
    hide DueUnder;
    hide Harmless;
    hide Settle;
    hide WaveStep;
    hide Gathered;
    hide AsPlanned;
    hide Initial;
    hide Steady;
    hide Scheduler.Driven;
    hide Graph.Acyclic;
    var start := World(Initial(g, inputs), None);
    if j == 0 {
      DrivenFrom(g, Steady(plan), start);
      assert RunUnder(g, plan, inputs, 0) == [start];
    } else {
      DueBefore(g, plan, j + 1);
      PlanRuns(g, plan, inputs, j - 1);
      var s := StateUnder(g, plan, inputs, j - 1);
      StatesAsPlanned(g, plan, inputs, j - 1);
      ReadyUnder(g, plan, s, j - 1);
      StepUnder(g, plan, s, j - 1);
      var w := World(StateUnder(g, plan, inputs, j), None);
      Scheduler.DrivenGrows(g, Steady(plan), false, start, RunUnder(g, plan, inputs, j - 1), w);
    }
  }

  lemma ReadyUnder(g: Graph, plan: Plan, s: State, j: nat)
    requires g.Valid() && g.Acyclic() && AsPlanned(g, plan, s, j) && DueUnder(g, plan, j + 1) != {}
    ensures s.ready != []
  {
    hide DueUnder;
    var n :| n in Elements(s.ready);
  }

  // ------------------------------------------------------------ how wide a wave can be

  /** In no run without questions do more than `width` nodes run in one wave, whatever the nodes do. */
  ghost predicate WavesWithin(g: Graph, width: nat) {
    forall beh: Behaviour, durable: bool, inputs: Outputs, trace: seq<World>
      {:trigger Scheduler.Driven(g, beh, durable, World(Initial(g, inputs), None), trace)} ::
      Scheduler.Driven(g, beh, durable, World(Initial(g, inputs), None), trace)
      && trace[|trace| - 1].state.awaiting == map[] ==>
        |trace[|trace| - 1].state.ready| <= width
  }

  lemma BatchSize(g: Graph, beh: Behaviour, durable: bool, inputs: Outputs, trace: seq<World>, width: nat)
    requires g.Valid() && g.Acyclic() && Scheduler.Driven(g, beh, durable, World(Initial(g, inputs), None), trace)
    requires trace[|trace| - 1].state.awaiting == map[]
    requires forall plan, k: nat :: Harmless(g, plan) ==> |DueUnder(g, plan, k)| <= width
    ensures |trace[|trace| - 1].state.ready| <= width
  {
    hide Frontier;
    hide AllPunctual;
    hide Harmless;
    hide DueUnder;
    hide WaveStep;
    hide Initial;
    hide Graph.Acyclic;
    var s := trace[|trace| - 1].state;
    RunPunctual(g, beh, durable, inputs, trace);
    if s.failures == [] {
      var plan := BatchIsPlanned(g, beh, durable, inputs, trace);
      DistinctCardinality(s.ready);
      SubsetCardinality(Elements(s.ready), DueUnder(g, plan, s.waves + 1));
    }
  }

  lemma PlanWithin(g: Graph, plan: Plan, k: nat, width: nat)
    requires g.Valid() && g.Acyclic() && Harmless(g, plan) && WavesWithin(g, width)
    ensures |DueUnder(g, plan, k)| <= width
  {
    hide Harmless;
    hide DueUnder;
    hide RunUnder;
    hide StateUnder;
    hide RunsUnder;
    hide Initial;
    hide Steady;
    hide WaveStep;
    hide Graph.Acyclic;
    if DueUnder(g, plan, k) != {} {
      DueFromOne(g, plan, k);
      var inputs: Outputs := map[];
      PlanRuns(g, plan, inputs, k - 1);
      StatesAsPlanned(g, plan, inputs, k - 1);
      var trace := RunUnder(g, plan, inputs, k - 1);
      var s := trace[|trace| - 1].state;
      assert |s.ready| <= width;
      DistinctCardinality(s.ready);
    }
  }

  lemma DueFromOne(g: Graph, plan: Plan, k: nat)
    requires g.Valid() && g.Acyclic() && DueUnder(g, plan, k) != {}
    ensures k >= 1
  {
    hide WaveUnder;
    hide SkippedBy;
    var n :| n in DueUnder(g, plan, k);
    WavePositive(g, plan, n);
  }

  /** How wide a wave can be: all runs of the graph without questions, failing ones among them, keep to
      `width` exactly if every plan does, that is, if no assignment of outcomes to the nodes makes more than
      `width` of them due in one wave. */
  lemma WidthExact(g: Graph, width: nat)
    requires g.Valid() && g.Acyclic()
    ensures WavesWithin(g, width) <==> forall plan, k: nat :: Harmless(g, plan) ==> |DueUnder(g, plan, k)| <= width
  {
    hide Harmless;
    hide DueUnder;
    hide WaveStep;
    hide Initial;
    hide Graph.Acyclic;
    if WavesWithin(g, width) {
      forall plan, k: nat | Harmless(g, plan) ensures |DueUnder(g, plan, k)| <= width {
        PlanWithin(g, plan, k, width);
      }
    }
    if forall plan, k: nat :: Harmless(g, plan) ==> |DueUnder(g, plan, k)| <= width {
      forall beh: Behaviour, durable: bool, inputs: Outputs, trace: seq<World>
        | Scheduler.Driven(g, beh, durable, World(Initial(g, inputs), None), trace)
          && trace[|trace| - 1].state.awaiting == map[]
        ensures |trace[|trace| - 1].state.ready| <= width
      {
        BatchSize(g, beh, durable, inputs, trace, width);
      }
    }
  }
}
