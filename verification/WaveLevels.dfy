/** The waves of a run against the static levels of its graph. */
module WaveLevels {
  import opened Wrappers
  import opened Ordering
  import opened Graphs
  import opened Levels
  import opened Engine
  import opened Frontiers
  import Scheduler

  /** Two nodes of one batch are never connected by a path. */
  lemma BatchIsAntichain(g: Graph, s: State, a: Id, n: Id)
    requires g.Valid() && g.Acyclic() && Frontier(g, s) && a in s.ready && n in s.ready
    ensures !g.Reaches(a, n)
  {
    FrontierBatch(g, s);
    if g.Reaches(a, n) {
      var e := LastEdge(g, a, n);
      assert n in Elements(s.ready);
      assert Placed(g, s, Elements(s.ready), {}, n);
      ZeroMeansAllCounted(g, s, {}, n);
      assert Counted(s.runs, {}, e);
      FrontierJustified(g, s);
      if e.source != a { UpstreamSettled(g, s.runs, e.source, a); }
    }
  }

  lemma {:induction false} UpstreamSettled(g: Graph, runs: map<Id, NodeRun>, n: Id, a: Id)
    requires g.Valid() && g.Acyclic() && Justified(g, runs) && SettledIn(runs, n) && g.Reaches(a, n)
    ensures SettledIn(runs, a)
    decreases g.Rank(n)
  {
    var e := LastEdge(g, a, n);
    EdgeRaisesRank(g, e);
    assert SettledIn(runs, e.source);
    if e.source != a { UpstreamSettled(g, runs, e.source, a); }
  }

  /** The node itself has been skipped, or one that leads to it. */
  ghost predicate SkippedAbove(g: Graph, runs: map<Id, NodeRun>, n: Id) {
    exists a :: a in runs && runs[a].status.Skipped? && (a == n || g.Reaches(a, n))
  }

  /** How far ahead of its level one node is: a decided node was decided at or before the wave
      after its level, and earlier only below a skipped node; an undecided one has a path at least as
      long as the run. */
  ghost predicate Timely(g: Graph, s: State, n: Id)
    requires n in s.runs
  {
    var rec := s.runs[n];
    if rec.status.Pending? then EndsPath(g, n, s.waves)
    else
      && rec.wave.Some? && 1 <= rec.wave.value <= s.waves && EndsPath(g, n, rec.wave.value - 1)
      && (EndsPath(g, n, rec.wave.value) ==> SkippedAbove(g, s.runs, n))
  }

  /** Some node was decided in the last wave. */
  ghost predicate LastWaveUsed(s: State) {
    s.waves > 0 ==> exists n :: n in s.runs && s.runs[n].wave == Some(s.waves)
  }

  ghost predicate OnTime(g: Graph, s: State) {
    && s.runs.Keys == g.nodes.Keys && LastWaveUsed(s)
    && forall n {:trigger Timely(g, s, n)} :: n in g.nodes ==> Timely(g, s, n)
  }

  /** What a wave without failures and questions makes of one record. */
  ghost predicate Advances(g: Graph, beh: Behaviour, s: State, t: State, n: Id)
    requires n in s.runs && n in t.runs
  {
    var rec := RecordAfter(g, beh, s, n);
    t.runs[n] == rec
      || (rec.status.Pending? && t.runs[n] == rec.(status := NodeStatus.Skipped, wave := Some(s.waves + 1)))
  }

  ghost predicate WaveAdvances(g: Graph, beh: Behaviour, s: State, t: State) {
    && t.runs.Keys == s.runs.Keys && t.waves == s.waves + 1 && s.awaiting == map[]
    && forall n {:trigger Advances(g, beh, s, t, n)} :: n in s.runs ==> Advances(g, beh, s, t, n)
  }

  lemma WaveStepAdvances(g: Graph, beh: Behaviour, s: State, t: State)
    requires WaveStep(g, beh, s, t) && t.awaiting == map[]
    ensures WaveAdvances(g, beh, s, t) && (t.failures == [] ==> Frontier(g, t))
  {
    var mid := Published(Gathered(g, beh, s), s.ready);
    assert s.awaiting.Keys <= mid.awaiting.Keys == t.awaiting.Keys;
    forall n | n in s.runs ensures Advances(g, beh, s, t, n) {
      assert mid.runs[n] == RecordAfter(g, beh, s, n);
    }
  }

  /** A node passed over in a wave has an undecided predecessor. */
  lemma PassedOver(g: Graph, s: State, n: Id)
    requires g.Valid() && Frontier(g, s) && OnTime(g, s) && s.awaiting == map[]
    requires n in g.nodes && s.runs[n].status.Pending? && n !in s.ready
    ensures EndsPath(g, n, s.waves + 1)
  {
    assert Placed(g, s, Elements(s.ready), {}, n) && Exact(g, s, {}, n);
    assert n !in Elements(s.ready);
    var e :| e in Uncounted(g, s.runs, {}, n);
    assert Timely(g, s, e.source);
    assert s.runs[e.source].status.Paused? ==> e.source in s.awaiting;
  }

  /** A dispatched node's predecessors were all decided in earlier waves; only below a skipped node can
      that be before its level. */
  lemma EarlyBelowSkipped(g: Graph, s: State, n: Id)
    requires g.Valid() && Frontier(g, s) && OnTime(g, s) && n in s.ready && n in g.nodes
    requires EndsPath(g, n, s.waves + 1)
    ensures SkippedAbove(g, s.runs, n)
  {
    hide Calm;
    assert n in Elements(s.ready);
    assert Placed(g, s, Elements(s.ready), {}, n);
    ZeroMeansAllCounted(g, s, {}, n);
    var e :| e in g.edges && e.target == n && EndsPath(g, e.source, s.waves);
    assert Counted(s.runs, {}, e);
    assert Timely(g, s, e.source);
    ShorterPaths(g, e.source, s.runs[e.source].wave.value, s.waves);
    BelowSkipped(g, s.runs, e);
  }

  lemma BelowSkipped(g: Graph, runs: map<Id, NodeRun>, e: Edge)
    requires g.Valid() && e in g.edges && SkippedAbove(g, runs, e.source)
    ensures SkippedAbove(g, runs, e.target)
  {
    var a :| a in runs && runs[a].status.Skipped? && (a == e.source || g.Reaches(a, e.source));
    EdgeReaches(g, e);
    if a != e.source { ReachesTransitive(g, a, e.source, e.target); }
  }

  lemma NodeOnTime(g: Graph, beh: Behaviour, s: State, t: State, n: Id)
    requires g.Valid() && Frontier(g, s) && OnTime(g, s) && WaveAdvances(g, beh, s, t) && n in g.nodes
    ensures Timely(g, t, n)
  {
    hide Frontier;
    hide EndsPath;
    hide OutcomeOf;
    hide SkippedAbove;
    assert Timely(g, s, n) && Advances(g, beh, s, t, n);
    NodeAfterWave(g, beh, s, n);
    if SkippedAbove(g, s.runs, n) { StillBelow(g, beh, s, t, n); }
    if n in s.ready {
      FinishedWave(g, n, Some(s.waves + 1), OutcomeOf(g, beh, s, n));
      if EndsPath(g, n, s.waves + 1) { EarlyBelowSkipped(g, s, n); }
    } else if s.runs[n].status.Pending? {
      PassedOver(g, s, n);
      if t.runs[n].status.Skipped? { SkippedItself(g, t.runs, n); }
    }
  }

  lemma SkippedItself(g: Graph, runs: map<Id, NodeRun>, n: Id)
    requires n in runs && runs[n].status.Skipped?
    ensures SkippedAbove(g, runs, n)
  {}

  lemma StillBelow(g: Graph, beh: Behaviour, s: State, t: State, n: Id)
    requires Frontier(g, s) && s.runs.Keys == g.nodes.Keys && WaveAdvances(g, beh, s, t) && SkippedAbove(g, s.runs, n)
    ensures SkippedAbove(g, t.runs, n)
  {
    hide Frontier;
    var a :| a in s.runs && s.runs[a].status.Skipped? && (a == n || g.Reaches(a, n));
    assert Advances(g, beh, s, t, a);
    NodeAfterWave(g, beh, s, a);
  }

  lemma FinishedWave(g: Graph, n: Id, wave: Option<nat>, o: Outcome)
    requires n in g.nodes
    ensures Finished(g, n, wave, o).wave == wave
  {}

  lemma BatchDecided(g: Graph, beh: Behaviour, s: State, t: State)
    requires Frontier(g, s) && s.ready != [] && WaveAdvances(g, beh, s, t)
    ensures LastWaveUsed(t)
  {
    FrontierBatch(g, s);
    var n := s.ready[0];
    assert n in Elements(s.ready);
    assert Advances(g, beh, s, t, n);
    NodeAfterWave(g, beh, s, n);
    FinishedWave(g, n, Some(s.waves + 1), OutcomeOf(g, beh, s, n));
    assert t.runs[n].wave == Some(t.waves);
  }

  /** Without failures and questions, a wave keeps the run on time. */
  lemma WaveOnTime(g: Graph, beh: Behaviour, s: State, t: State)
    requires g.Valid() && Frontier(g, s) && OnTime(g, s) && s.ready != [] && WaveAdvances(g, beh, s, t)
    ensures OnTime(g, t)
  {
    BatchDecided(g, beh, s, t);
    forall n | n in g.nodes ensures Timely(g, t, n) { NodeOnTime(g, beh, s, t, n); }
  }

  lemma InitialOnTime(g: Graph, inputs: Outputs)
    requires g.Valid()
    ensures Frontier(g, Initial(g, inputs)) && OnTime(g, Initial(g, inputs))
  {
    InitialFrontier(g, inputs);
    forall n | n in g.nodes ensures Timely(g, Initial(g, inputs), n) {}
  }

  /** In a run without questions every node is on time, up to and including a wave that fails. */
  lemma {:induction false} RunOnTime(g: Graph, beh: Behaviour, durable: bool, inputs: Outputs, trace: seq<World>)
    requires g.Valid() && Scheduler.Driven(g, beh, durable, World(Initial(g, inputs), None), trace)
    requires trace[|trace| - 1].state.awaiting == map[]
    ensures var s := trace[|trace| - 1].state; OnTime(g, s) && (s.failures == [] ==> Frontier(g, s))
    decreases |trace|
  {
    if |trace| == 1 {
      InitialOnTime(g, inputs);
    } else {
      var before := trace[..|trace| - 1];
      StepOnTime(g, beh, before[|before| - 1].state, trace[|trace| - 1].state);
      RunOnTime(g, beh, durable, inputs, before);
    }
  }

  lemma StepOnTime(g: Graph, beh: Behaviour, s: State, t: State)
    requires g.Valid() && WaveStep(g, beh, s, t) && t.awaiting == map[]
    ensures s.failures == [] && s.awaiting == map[] && (t.failures == [] ==> Frontier(g, t))
    ensures Frontier(g, s) && OnTime(g, s) ==> OnTime(g, t)
  {
    WaveStepAdvances(g, beh, s, t);
    if Frontier(g, s) && OnTime(g, s) { WaveOnTime(g, beh, s, t); }
  }

  lemma NodeWithinLevel(g: Graph, s: State, n: Id, k: nat)
    requires g.Valid() && n in s.runs && Timely(g, s, n) && AtLevel(g, n, k) && !s.runs[n].status.Pending?
    ensures s.runs[n].wave.Some? && s.runs[n].wave.value <= k + 1
    ensures !SkippedAbove(g, s.runs, n) ==> s.runs[n].wave == Some(k + 1)
  {
    var w := s.runs[n].wave.value;
    if w > k + 1 { ShorterPaths(g, n, k + 1, w - 1); }
    if w < k + 1 { ShorterPaths(g, n, w, k); }
  }

  lemma WavesBounded(g: Graph, s: State, levels: nat)
    requires g.Valid() && OnTime(g, s) && forall n :: n in g.nodes ==> !EndsPath(g, n, levels)
    ensures s.waves <= levels
  {
    if s.waves > levels {
      var n :| n in s.runs && s.runs[n].wave == Some(s.waves);
      assert Timely(g, s, n);
      ShorterPaths(g, n, levels, if s.runs[n].status.Pending? then s.waves else s.waves - 1);
    }
  }

  /** In a run without questions, whether it fails or not, no node is decided later than the wave of its
      static level; one that neither was skipped nor lies below a skipped node is decided in exactly that
      wave; and there are no more waves than levels. */
  lemma WavesWithinLevels(g: Graph, beh: Behaviour, durable: bool, inputs: Outputs, trace: seq<World>, levels: nat)
    requires g.Valid() && Scheduler.Driven(g, beh, durable, World(Initial(g, inputs), None), trace)
    requires trace[|trace| - 1].state.awaiting == map[]
    requires forall n :: n in g.nodes ==> !EndsPath(g, n, levels)
    ensures var s := trace[|trace| - 1].state; s.waves <= levels && s.runs.Keys == g.nodes.Keys
    ensures var s := trace[|trace| - 1].state;
            forall n, k: nat :: n in g.nodes && AtLevel(g, n, k) && !s.runs[n].status.Pending? ==>
              && s.runs[n].wave.Some? && s.runs[n].wave.value <= k + 1
              && (!SkippedAbove(g, s.runs, n) ==> s.runs[n].wave.value == k + 1)
  {
    var s := trace[|trace| - 1].state;
    RunOnTime(g, beh, durable, inputs, trace);
    WavesBounded(g, s, levels);
    forall n, k: nat | n in g.nodes && AtLevel(g, n, k) && !s.runs[n].status.Pending?
      ensures s.runs[n].wave.Some? && s.runs[n].wave.value <= k + 1
      ensures !SkippedAbove(g, s.runs, n) ==> s.runs[n].wave.value == k + 1
    {
      assert Timely(g, s, n);
      NodeWithinLevel(g, s, n, k);
    }
  }

  lemma WaveIsLevel(g: Graph, s: State, n: Id, k: nat)
    requires g.Valid() && n in s.runs && Timely(g, s, n) && s.runs[n].Ran() && !SkippedAbove(g, s.runs, n)
    ensures s.runs[n].wave == Some(k + 1) <==> AtLevel(g, n, k)
  {
    hide EndsPath;
    hide SkippedAbove;
    if AtLevel(g, n, k) { NodeWithinLevel(g, s, n, k); }
  }

  /** Where every node has run, the waves are the levels: those of wave `k + 1` are exactly those of level `k`. */
  lemma WavesAreLevels(g: Graph, beh: Behaviour, durable: bool, inputs: Outputs, trace: seq<World>, k: nat)
    requires g.Valid() && Scheduler.Driven(g, beh, durable, World(Initial(g, inputs), None), trace)
    requires var s := trace[|trace| - 1].state; s.awaiting == map[] && forall n :: n in s.runs ==> s.runs[n].Ran()
    ensures var s := trace[|trace| - 1].state;
            (set n | n in s.runs && s.runs[n].wave == Some(k + 1)) == LevelOf(g, k)
  {
    hide AtLevel;
    hide Timely;
    hide WaveStep;
    hide Initial;
    hide Frontier;
    hide Graph.Reaches;
    var s := trace[|trace| - 1].state;
    RunOnTime(g, beh, durable, inputs, trace);
    assert forall n :: n in s.runs ==> !s.runs[n].status.Skipped?;
    forall n | n in g.nodes ensures s.runs[n].wave == Some(k + 1) <==> AtLevel(g, n, k) {
      assert Timely(g, s, n);
      WaveIsLevel(g, s, n, k);
    }
  }

  // ------------------------------------------------------------ how wide a wave can be

  /** The next wave's nodes are at the level of the wave, unless a skipped node lies above them. */
  lemma BatchLevel(g: Graph, s: State, n: Id)
    requires g.Valid() && Frontier(g, s) && OnTime(g, s) && n in s.ready
    ensures n in g.nodes && (AtLevel(g, n, s.waves) || SkippedAbove(g, s.runs, n))
  {
    assert n in Elements(s.ready);
    assert Placed(g, s, Elements(s.ready), {}, n);
    assert Timely(g, s, n);
    hide Frontier;
    if EndsPath(g, n, s.waves + 1) { EarlyBelowSkipped(g, s, n); }
  }

  /** In a run without questions, a wave no node of which lies below a skipped one is part of one level,
      and so no wider than the graph. */
  lemma WaveWithinWidth(
    g: Graph, beh: Behaviour, durable: bool, inputs: Outputs, trace: seq<World>, width: nat)
    requires g.Valid() && Scheduler.Driven(g, beh, durable, World(Initial(g, inputs), None), trace)
    requires var s := trace[|trace| - 1].state;
             s.failures == [] && s.awaiting == map[] && forall n :: n in s.ready ==> !SkippedAbove(g, s.runs, n)
    requires Widest(g, width)
    ensures var s := trace[|trace| - 1].state;
            (forall n :: n in s.ready ==> AtLevel(g, n, s.waves)) && |s.ready| <= width
  {
    hide AtLevel;
    hide SkippedAbove;
    var s := trace[|trace| - 1].state;
    RunOnTime(g, beh, durable, inputs, trace);
    forall n | n in s.ready ensures n in LevelOf(g, s.waves) && AtLevel(g, n, s.waves) { BatchLevel(g, s, n); }
    DistinctCardinality(s.ready);
    var batch := set n | n in s.ready;
    SubsetCardinality(batch, LevelOf(g, s.waves));
  }

  // ------------------------------------------------------------ graphs that skip nothing

  /** No edge carries a label. */
  predicate Unlabelled(g: Graph) { forall e :: e in g.edges ==> e.branch.None? }

  ghost predicate NoneRouted(runs: map<Id, NodeRun>) {
    forall n :: n in runs ==> !(runs[n].status.Failed? && runs[n].recovered) && (runs[n].Ran() ==> runs[n].branch.None?)
  }

  lemma UnlabelledFinish(g: Graph, n: Id, wave: Option<nat>, o: Outcome)
    requires Unlabelled(g) && n in g.nodes
    ensures var r := Finished(g, n, wave, o);
            !(r.status.Failed? && r.recovered) && (r.Ran() ==> r.branch.None?)
  {
    assert Labels(g, n) == {};
  }

  /** Where no edge is labelled, every edge of a node that ran is taken, and so nothing is skipped. */
  lemma {:induction false} NothingSkipped(g: Graph, runs: map<Id, NodeRun>, n: Id)
    requires g.Valid() && g.Acyclic() && Unlabelled(g) && Justified(g, runs) && NoneRouted(runs) && n in g.nodes
    ensures n in runs && !runs[n].status.Skipped?
    decreases g.Rank(n)
  {
    if runs[n].status.Skipped? {
      var e :| e in g.In(n);
      EdgeRaisesRank(g, e);
      NothingSkipped(g, runs, e.source);
    }
  }

  lemma StepUnrouted(g: Graph, beh: Behaviour, s: State, t: State)
    requires g.Valid() && Unlabelled(g) && NoneRouted(s.runs)
    requires s.runs.Keys == g.nodes.Keys && WaveAdvances(g, beh, s, t)
    ensures NoneRouted(t.runs)
  {
    forall n | n in t.runs
      ensures !(t.runs[n].status.Failed? && t.runs[n].recovered) && (t.runs[n].Ran() ==> t.runs[n].branch.None?)
    {
      assert Advances(g, beh, s, t, n);
      UnlabelledFinish(g, n, Some(s.waves + 1), OutcomeOf(g, beh, s, n));
    }
  }

  lemma {:induction false} RunUnrouted(g: Graph, beh: Behaviour, durable: bool, inputs: Outputs, trace: seq<World>)
    requires g.Valid() && Unlabelled(g) && Scheduler.Driven(g, beh, durable, World(Initial(g, inputs), None), trace)
    requires trace[|trace| - 1].state.awaiting == map[]
    ensures NoneRouted(trace[|trace| - 1].state.runs)
    decreases |trace|
  {
    if |trace| > 1 {
      var before := trace[..|trace| - 1];
      var s, t := before[|before| - 1].state, trace[|trace| - 1].state;
      StepOnTime(g, beh, s, t);
      RunUnrouted(g, beh, durable, inputs, before);
      RunOnTime(g, beh, durable, inputs, before);
      WaveStepAdvances(g, beh, s, t);
      StepUnrouted(g, beh, s, t);
    }
  }

  lemma NoneBelowSkipped(g: Graph, runs: map<Id, NodeRun>, n: Id)
    requires g.Valid() && g.Acyclic() && Unlabelled(g) && Justified(g, runs) && NoneRouted(runs)
    requires runs.Keys == g.nodes.Keys
    ensures !SkippedAbove(g, runs, n)
  {
    hide Justified;
    hide NoneRouted;
    hide Unlabelled;
    forall a | a in runs ensures !runs[a].status.Skipped? { NothingSkipped(g, runs, a); }
  }

  /** On a graph without labelled edges `max_width` bounds every wave of every run without questions. */
  lemma UnlabelledWithinWidth(
    g: Graph, beh: Behaviour, durable: bool, inputs: Outputs, trace: seq<World>, width: nat)
    requires g.Valid() && g.Acyclic() && Unlabelled(g) && Widest(g, width)
    requires Scheduler.Driven(g, beh, durable, World(Initial(g, inputs), None), trace)
    requires var s := trace[|trace| - 1].state; s.failures == [] && s.awaiting == map[]
    ensures |trace[|trace| - 1].state.ready| <= width
  {
    hide Justified;
    hide NoneRouted;
    hide Unlabelled;
    hide Widest;
    hide SkippedAbove;
    hide Graph.Acyclic;
    hide Graph.Reaches;
    hide AtLevel;
    var s := trace[|trace| - 1].state;
    RunOnTime(g, beh, durable, inputs, trace);
    RunUnrouted(g, beh, durable, inputs, trace);
    FrontierJustified(g, s);
    forall n | n in s.ready ensures !SkippedAbove(g, s.runs, n) { NoneBelowSkipped(g, s.runs, n); }
    WaveWithinWidth(g, beh, durable, inputs, trace, width);
  }
}
