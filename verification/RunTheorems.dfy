/** What the engine promises of whole runs. */
module RunTheorems {
  import opened Wrappers
  import opened Ordering
  import opened Graphs
  import opened Engine
  import opened Frontiers
  import opened Histories

  // ------------------------------------------------------------ the counters of every history

  /** Any sequence of waves, exits and resumes at all. */
  ghost predicate Lineage(
    g: Graph, beh: Behaviour, answers: map<Id, Outputs>, durable: bool, inputs: Outputs, trace: seq<World>)
  {
    && trace != []
    && if |trace| == 1 then trace[0] == World(Initial(g, inputs), None)
       else
         var before := trace[..|trace| - 1];
         && Lineage(g, beh, answers, durable, inputs, before)
         && Next(g, beh, answers, durable, before[|before| - 1], trace[|trace| - 1])
  }

  /** Whatever the nodes do, whatever a restore forgets: as long as nothing has failed for good, the counters,
      the queue and the records fit together exactly. */
  lemma {:induction false} CountersAlwaysExact(
    g: Graph, beh: Behaviour, answers: map<Id, Outputs>, durable: bool, inputs: Outputs, trace: seq<World>)
    requires g.Valid() && Lineage(g, beh, answers, durable, inputs, trace)
    ensures var s := trace[|trace| - 1].state; s.failures == [] ==> Frontier(g, s)
    decreases |trace|
  {
    hide Frontier;
    if |trace| == 1 {
      InitialFrontier(g, inputs);
    } else {
      var before := trace[..|trace| - 1];
      CountersAlwaysExact(g, beh, answers, durable, inputs, before);
      StepStaysExact(g, beh, answers, durable, before[|before| - 1], trace[|trace| - 1]);
    }
  }

  lemma StepStaysExact(g: Graph, beh: Behaviour, answers: map<Id, Outputs>, durable: bool, w: World, v: World)
    requires Next(g, beh, answers, durable, w, v) && (w.state.failures == [] ==> Frontier(g, w.state))
    ensures v.state.failures == [] ==> Frontier(g, v.state)
  {
    hide Frontier;
    hide Gathered;
    hide FatalOf;
    hide Restore;
    hide AnsweredFor;
  }

  // ------------------------------------------------------------ nothing is done twice

  /** Nothing has happened to an undecided node. */
  ghost predicate Untouched(runs: map<Id, NodeRun>) {
    forall n :: n in runs && runs[n].status.Pending? ==> runs[n] == FRESH
  }

  ghost predicate Consistent(g: Graph, w: World) {
    && w.state.runs.Keys == g.nodes.Keys && Untouched(w.state.runs)
    && (w.state.failures == [] ==> Frontier(g, w.state))
    && (w.saved.Some? ==> Resumable(g, w.saved.value) && Settlements(w.saved.value.nodes, w.state.runs))
  }

  ghost predicate Resumable(g: Graph, c: Checkpoint) {
    c.nodes.Keys == g.nodes.Keys && Untouched(c.nodes) && Frontier(g, Restore(g, c))
  }

  /** What a step does to one record: nothing, if it is settled or still undecided afterwards. */
  ghost predicate Progresses(before: NodeRun, after: NodeRun) {
    (before.Settled() ==> after == before) && (after.status.Pending? ==> after == before)
  }

  lemma WaveProgress(g: Graph, beh: Behaviour, s: State, t: State, n: Id)
    requires Frontier(g, s) && WaveStep(g, beh, s, t) && n in g.nodes
    ensures n in s.runs && n in t.runs && Progresses(s.runs[n], t.runs[n])
  {
    hide Frontier;
    hide WaveStep;
    hide RecordAfter;
    hide OutcomeOf;
    NodeAfterWave(g, beh, s, n);
    RecordMoves(g, beh, s, t, n);
  }

  lemma WaveSettles(g: Graph, beh: Behaviour, s: State, t: State)
    requires Frontier(g, s) && Untouched(s.runs) && WaveStep(g, beh, s, t)
    ensures t.runs.Keys == g.nodes.Keys && Untouched(t.runs) && Settlements(s.runs, t.runs)
  {
    FrontierBatch(g, s);
    WaveKeys(g, beh, s, t);
    hide Frontier;
    hide WaveStep;
    forall n | n in g.nodes ensures n in s.runs && n in t.runs && Progresses(s.runs[n], t.runs[n]) {
      WaveProgress(g, beh, s, t, n);
    }
  }

  lemma WaveKeys(g: Graph, beh: Behaviour, s: State, t: State)
    requires WaveStep(g, beh, s, t)
    ensures t.runs.Keys == s.runs.Keys
  {
    hide Frontier;
    hide RecordAfter;
    hide OutcomeOf;
    hide FatalOf;
  }

  lemma RestoredAsks(g: Graph, c: Checkpoint)
    ensures Restore(g, c).awaiting == c.awaiting
  {}

  lemma ResumeSettles(g: Graph, answers: map<Id, Outputs>, c: Checkpoint, t: State)
    requires Resumable(g, c) && ResumeStep(g, answers, c, t)
    ensures t.runs.Keys == g.nodes.Keys && Untouched(t.runs) && Settlements(c.nodes, t.runs) && Frontier(g, t)
  {
    hide Frontier;
    hide Answered;
    hide Restore;
    hide Settlements;
    RestoredRuns(g, c);
    RestoredAsks(g, c);
    var r := Restore(g, c);
    var mid := Answered(r, answers);
    AnsweredRuns(g, r, answers);
    assert r.runs == c.nodes;
    forall n | n in mid.runs && mid.runs[n].status.Pending? ensures mid.runs[n] == FRESH {
      assert n !in r.awaiting;
    }
    DrainSettles(g, mid, t);
    SettlementsChain(c.nodes, mid.runs, t.runs);
  }

  lemma DrainSettles(g: Graph, s: State, t: State)
    requires Drained(g, s, t) && Untouched(s.runs)
    ensures t.runs.Keys == s.runs.Keys && Untouched(t.runs) && Settlements(s.runs, t.runs) && Frontier(g, t)
  {
    hide Frontier;
  }

  lemma SavedResumable(g: Graph, s: State)
    requires Frontier(g, s) && Untouched(s.runs) && s.runs.Keys == g.nodes.Keys
    ensures Resumable(g, Save(s)) && Settlements(Save(s).nodes, s.runs)
  {
    hide Frontier;
    RestoredRuns(g, Save(s));
    SavedFrontier(g, s);
  }

  lemma SavedFrontier(g: Graph, s: State)
    requires Frontier(g, s)
    ensures Frontier(g, Restore(g, Save(s)))
  {
    var r := Restore(g, Save(s));
    assert r.runs == s.runs;
    hide Restore;
    SameFrontier(g, s, r);
  }

  lemma StepConsistent(g: Graph, beh: Behaviour, answers: map<Id, Outputs>, durable: bool, w: World, v: World)
    requires Consistent(g, w) && Next(g, beh, answers, durable, w, v)
    ensures Consistent(g, v)
    ensures !ResumeNext(g, answers, w, v) ==> Settlements(w.state.runs, v.state.runs)
  {
    hide Frontier;
    hide Untouched;
    StepStaysExact(g, beh, answers, durable, w, v);
    if ResumeNext(g, answers, w, v) {
      ResumeSettles(g, answers, w.saved.value, v.state);
    } else {
      hide ResumeStep;
      if WaveNext(g, beh, durable, w, v) { WaveSettles(g, beh, w.state, v.state); }
      hide WaveStep;
      if v.saved != w.saved && v.saved.Some? { SavedResumable(g, v.state); }
    }
  }

  lemma {:induction false} LineageConsistent(
    g: Graph, beh: Behaviour, answers: map<Id, Outputs>, durable: bool, inputs: Outputs, trace: seq<World>)
    requires g.Valid() && Lineage(g, beh, answers, durable, inputs, trace)
    ensures Consistent(g, trace[|trace| - 1])
    decreases |trace|
  {
    hide Consistent;
    hide Next;
    if |trace| == 1 {
      InitialConsistent(g, inputs);
    } else {
      var before := trace[..|trace| - 1];
      LineageConsistent(g, beh, answers, durable, inputs, before);
      StepConsistent(g, beh, answers, durable, before[|before| - 1], trace[|trace| - 1]);
    }
  }

  lemma InitialConsistent(g: Graph, inputs: Outputs)
    requires g.Valid()
    ensures Consistent(g, World(Initial(g, inputs), None))
  {
    hide Frontier;
    InitialFrontier(g, inputs);
  }

  /** However a run crashes and resumes: no node settled in the surviving checkpoint is ever dispatched
      again, and no node at all is dispatched that has a record already. */
  lemma NothingRedone(
    g: Graph, beh: Behaviour, answers: map<Id, Outputs>, durable: bool, inputs: Outputs, trace: seq<World>, n: Id)
    requires g.Valid() && Lineage(g, beh, answers, durable, inputs, trace)
    requires var s := trace[|trace| - 1].state; s.failures == [] && n in s.ready
    ensures var w := trace[|trace| - 1];
            && n in w.state.runs && w.state.runs[n] == FRESH
            && (w.saved.Some? ==> !SettledIn(w.saved.value.nodes, n))
  {
    LineageConsistent(g, beh, answers, durable, inputs, trace);
    FrontierBatch(g, trace[|trace| - 1].state);
  }

  // ------------------------------------------------------------ every world of every history

  /** What no step breaks: whatever sequence of waves, saves, pauses, crashes and resumes led
      here, the state is explained by the nodes' behaviour, and so is the checkpoint kept. */
  lemma {:induction false} HistoryKeeps(
    g: Graph, beh: Behaviour, answers: map<Id, Outputs>, durable: bool, inputs: Outputs, trace: seq<World>)
    requires g.Valid() && g.Acyclic() && RUN_NAMESPACE !in g.nodes && Local(g, beh)
    requires History(g, beh, answers, durable, inputs, trace)
    ensures WorldOk(g, beh, answers, inputs, trace[|trace| - 1])
    decreases |trace|
  {
    if |trace| == 1 {
      InitialOk(g, beh, answers, inputs);
    } else {
      var before := trace[..|trace| - 1];
      HistoryKeeps(g, beh, answers, durable, inputs, before);
      StepKeeps(g, beh, answers, durable, inputs, before[|before| - 1], trace[|trace| - 1]);
    }
  }

  lemma InitialSound(g: Graph, beh: Behaviour, answers: map<Id, Outputs>, inputs: Outputs)
    requires g.Valid()
    ensures var s := Initial(g, inputs);
            s.inputs == inputs && s.failures == [] && Frontier(g, s) && Sound(g, beh, answers, s)
  {
    hide Frontier;
    hide Sorted;
    var s := Initial(g, inputs);
    InitialFrontier(g, inputs);
    FrontierJustified(g, s);
    hide Justified;
    forall n | n in g.nodes ensures Recorded(g, beh, answers, inputs, s.runs, n) {
      assert s.runs[n] == FRESH;
    }
  }

  lemma InitialShown(g: Graph, inputs: Outputs)
    ensures Shown(g, Initial(g, inputs))
  {
    hide Sorted;
    var s := Initial(g, inputs);
    assert forall n :: !RanIn(s.runs, n);
    assert s.pool == PoolOf(inputs, s.runs);
  }

  lemma InitialOk(g: Graph, beh: Behaviour, answers: map<Id, Outputs>, inputs: Outputs)
    requires g.Valid()
    ensures WorldOk(g, beh, answers, inputs, World(Initial(g, inputs), None))
  {
    hide Initial;
    hide Frontier;
    hide Sound;
    hide Shown;
    InitialSound(g, beh, answers, inputs);
    InitialShown(g, inputs);
  }

  lemma StepKeeps(
    g: Graph, beh: Behaviour, answers: map<Id, Outputs>, durable: bool, inputs: Outputs, w: World, v: World)
    requires g.Valid() && g.Acyclic() && RUN_NAMESPACE !in g.nodes && Local(g, beh)
    requires WorldOk(g, beh, answers, inputs, w) && SafeNext(g, beh, answers, durable, w, v)
    ensures WorldOk(g, beh, answers, inputs, v)
  {
    if WaveNext(g, beh, durable, w, v) {
      WaveKeeps(g, beh, answers, w.state, v.state);
      if durable && v.state.failures == [] {
        SavedTrusted(g, beh, answers, v.state);
      }
    } else if ExitNext(durable, w, v) {
      if StatusOf(w.state).RunPaused? {
        SavedTrusted(g, beh, answers, w.state);
      }
    } else {
      ResumeKeeps(g, beh, answers, w.saved.value, v.state);
    }
  }

  // ------------------------------------------------------------ the end of a run

  ghost predicate Finished(s: State) { Exited(s) && StatusOf(s) == RunCompleted }

  lemma FinishedSettled(g: Graph, s: State)
    requires g.Valid() && g.Acyclic() && Frontier(g, s) && Finished(s)
    ensures forall n :: n in g.nodes ==> SettledIn(s.runs, n)
  {
    forall n | n in g.nodes ensures SettledIn(s.runs, n) {
      if !SettledIn(s.runs, n) {
        var b := BlockedBy(g, s, n);
      }
    }
  }

  /** Whatever is unsettled once nothing is ready waits on an open question. */
  lemma {:induction false} BlockedBy(g: Graph, s: State, n: Id) returns (b: Id)
    requires g.Valid() && g.Acyclic() && Frontier(g, s) && s.ready == []
    requires n in g.nodes && !SettledIn(s.runs, n)
    ensures b in s.awaiting && (b == n || g.Reaches(b, n))
    decreases g.Rank(n)
  {
    assert Placed(g, s, Elements(s.ready), {}, n) && Exact(g, s, {}, n);
    if s.runs[n].status.Paused? {
      b := n;
    } else {
      assert n !in Elements(s.ready);
      assert |Uncounted(g, s.runs, {}, n)| != 0;
      var e :| e in Uncounted(g, s.runs, {}, n);
      EdgeRaisesRank(g, e);
      EdgeReaches(g, e);
      b := BlockedBy(g, s, e.source);
      if b != e.source { ReachesTransitive(g, b, e.source, n); }
    }
  }

  lemma AwaitingUnsettled(g: Graph, s: State, n: Id)
    requires Frontier(g, s) && n in s.awaiting
    ensures !SettledIn(s.runs, n)
  {
    hide Tally;
  }

  lemma AwaitedUnsettled(g: Graph, s: State, n: Id, b: Id)
    requires g.Valid() && g.Acyclic() && Frontier(g, s) && n in g.nodes && b in s.awaiting && g.Reaches(b, n)
    ensures !SettledIn(s.runs, n)
  {
    AwaitingUnsettled(g, s, b);
    FrontierJustified(g, s);
    hide Frontier;
    if SettledIn(s.runs, n) { AncestorsSettled(g, s.runs, n, b); }
  }

  /** No join is stranded: when the loop exits without a failure, exactly the awaiting nodes
      and what lies downstream of them is unsettled. */
  lemma NoJoinStranded(g: Graph, s: State, n: Id)
    requires g.Valid() && g.Acyclic() && Frontier(g, s) && s.ready == [] && n in g.nodes
    ensures !SettledIn(s.runs, n) <==> n in s.awaiting || exists b :: b in s.awaiting && g.Reaches(b, n)
  {
    hide Frontier;
    hide SettledIn;
    hide Graph.Acyclic;
    if n in s.awaiting {
      AwaitingUnsettled(g, s, n);
    } else if !SettledIn(s.runs, n) {
      var b := BlockedBy(g, s, n);
    } else if b :| b in s.awaiting && g.Reaches(b, n) {
      AwaitedUnsettled(g, s, n, b);
    }
  }

  // ------------------------------------------------------------ skipped means unreachable

  /** `x` holds the roots and every target of a taken edge that leaves `x`. */
  ghost predicate ClosedUnderTaken(g: Graph, runs: map<Id, NodeRun>, x: set<Id>) {
    && (forall n :: n in g.nodes && g.In(n) == {} ==> n in x)
    && forall e :: e in g.edges && e.source in x && Takes(g, runs, e) ==> e.target in x
  }

  ghost function Executed(runs: map<Id, NodeRun>): set<Id> { set n | n in runs && runs[n].Ran() }

  /** In a completed run every node either ran or was skipped, and the nodes that ran are the
      least set that holds the roots and is closed under taken edges. */
  lemma SkippedMeansUnreachable(g: Graph, s: State)
    requires g.Valid() && g.Acyclic() && Frontier(g, s) && Finished(s)
    ensures forall n :: n in g.nodes ==> (s.runs[n].status.Skipped? <==> n !in Executed(s.runs))
    ensures ClosedUnderTaken(g, s.runs, Executed(s.runs))
    ensures forall x :: ClosedUnderTaken(g, s.runs, x) ==> Executed(s.runs) <= x
  {
    FinishedSettled(g, s);
    FrontierJustified(g, s);
    forall n | n in g.nodes ensures s.runs[n].status.Skipped? <==> n !in Executed(s.runs) {
      assert SettledIn(s.runs, n);
    }
    forall x | ClosedUnderTaken(g, s.runs, x) ensures Executed(s.runs) <= x {
      forall n | n in Executed(s.runs) ensures n in x { ExecutedWithin(g, s.runs, x, n); }
    }
  }

  lemma {:induction false} ExecutedWithin(g: Graph, runs: map<Id, NodeRun>, x: set<Id>, n: Id)
    requires g.Valid() && g.Acyclic() && Justified(g, runs) && ClosedUnderTaken(g, runs, x) && n in Executed(runs)
    ensures n in x
    decreases g.Rank(n)
  {
    if g.In(n) != {} {
      var e :| e in g.edges && e.target == n && Takes(g, runs, e);
      EdgeRaisesRank(g, e);
      assert SettledIn(runs, e.source);
      ExecutedWithin(g, runs, x, e.source);
    }
  }

  // ------------------------------------------------------------ all histories end alike

  ghost predicate SameRecords(s: State, t: State) {
    s.runs.Keys == t.runs.Keys && forall n :: n in s.runs ==> s.runs[n].Timeless() == t.runs[n].Timeless()
  }

  /** A node settled in one sound state cannot have failed for good in another, and can be
      waiting there only for an answer it would have been given. */
  lemma NoOtherVerdict(
    g: Graph, beh: Behaviour, answers: map<Id, Outputs>, s: State,
    beh': Behaviour, answers': map<Id, Outputs>, t: State, n: Id)
    requires g.Valid() && g.Acyclic() && RUN_NAMESPACE !in g.nodes && s.inputs == t.inputs
    requires SameBehaviour(Resolved(beh, answers), Resolved(beh', answers'))
    requires Sound(g, beh, answers, s) && Sound(g, beh', answers', t)
    requires n in g.nodes && SettledIn(s.runs, n)
    ensures !t.runs[n].Fatal()
    ensures t.runs[n].status.Paused? ==> n in answers'
  {
    if t.runs[n].Fatal() {
      Agreement(g, beh, answers, s, beh', answers', t, n);
    } else if t.runs[n].status.Paused? && n !in answers' {
      forall a | a in g.Ancestors(n) ensures s.runs[a].Timeless() == t.runs[a].Timeless() {
        AncestorsSettled(g, s.runs, n, a);
        AncestorsSettled(g, t.runs, n, a);
        Agreement(g, beh, answers, s, beh', answers', t, a);
      }
      NotLeftWaiting(g, beh, answers, s, beh', answers', t, n);
    }
  }

  lemma NotLeftWaiting(
    g: Graph, beh: Behaviour, answers: map<Id, Outputs>, s: State,
    beh': Behaviour, answers': map<Id, Outputs>, t: State, n: Id)
    requires g.Valid() && RUN_NAMESPACE !in g.nodes && s.inputs == t.inputs
    requires SameBehaviour(Resolved(beh, answers), Resolved(beh', answers'))
    requires Sound(g, beh, answers, s) && Sound(g, beh', answers', t)
    requires n in g.nodes && SettledIn(s.runs, n) && n !in answers'
    requires forall a :: a in g.Ancestors(n) ==> s.runs[a].Timeless() == t.runs[a].Timeless()
    ensures !t.runs[n].status.Paused?
  {
    if t.runs[n].status.Paused? {
      TimelessView(g, s, t, n);
      var view := View(g, s.inputs, s.runs, n);
      assert Recorded(g, beh, answers, s.inputs, s.runs, n);
      assert Recorded(g, beh', answers', t.inputs, t.runs, n);
      assert Resolved(beh', answers')(n, view).Asks?;
      FinishedStatus(g, n, s.runs[n].wave, Resolved(beh, answers)(n, view));
      SkippedAlike(g, s, t, n);
    }
  }

  lemma TimelessView(g: Graph, s: State, t: State, n: Id)
    requires g.Valid() && RUN_NAMESPACE !in g.nodes && s.inputs == t.inputs
    requires s.runs.Keys == t.runs.Keys == g.nodes.Keys
    requires forall a :: a in g.Ancestors(n) ==> s.runs[a].Timeless() == t.runs[a].Timeless()
    ensures View(g, s.inputs, s.runs, n) == View(g, t.inputs, t.runs, n)
  {
    forall a | a in g.Ancestors(n)
      ensures s.runs[a].Ran() == t.runs[a].Ran() && s.runs[a].outputs == t.runs[a].outputs
    {
      assert s.runs[a].Timeless() == t.runs[a].Timeless();
    }
    ViewStable(g, s.inputs, s.runs, t.runs, n);
  }

  lemma SkippedAlike(g: Graph, s: State, t: State, n: Id)
    requires g.Valid() && Justified(g, s.runs) && Justified(g, t.runs)
    requires n in g.nodes && !s.runs[n].status.Pending? && !t.runs[n].status.Pending?
    requires forall a :: a in g.Ancestors(n) ==> s.runs[a].Timeless() == t.runs[a].Timeless()
    ensures s.runs[n].status.Skipped? <==> t.runs[n].status.Skipped?
  {
    forall e | e in g.edges && e.target == n ensures Takes(g, s.runs, e) <==> Takes(g, t.runs, e) {
      EdgeReaches(g, e);
      assert e.source in g.Ancestors(n);
      assert s.runs[e.source].Timeless() == t.runs[e.source].Timeless();
    }
  }

  /** Crash recovery and pause transparency in one. Take any two histories of the same graph on
      the same inputs, with behaviours that agree once questions are answered, and suppose the
      first has completed. Then no world of the second has failed, it waits for nothing but
      answers it will be given, and if it has completed too it has the same statuses, branches
      and outputs, the same pool, and the same counters. */
  lemma HistoriesEndAlike(
    g: Graph, inputs: Outputs,
    beh: Behaviour, answers: map<Id, Outputs>, durable: bool, trace: seq<World>,
    beh': Behaviour, answers': map<Id, Outputs>, durable': bool, trace': seq<World>)
    requires g.Valid() && g.Acyclic() && RUN_NAMESPACE !in g.nodes && Local(g, beh) && Local(g, beh')
    requires SameBehaviour(Resolved(beh, answers), Resolved(beh', answers'))
    requires History(g, beh, answers, durable, inputs, trace) && Finished(trace[|trace| - 1].state)
    requires History(g, beh', answers', durable', inputs, trace')
    ensures var s, t := trace[|trace| - 1].state, trace'[|trace'| - 1].state;
            && t.failures == []
            && t.awaiting.Keys <= answers'.Keys
            && (Finished(t) ==> SameRecords(s, t) && s.pool == t.pool && s.pending == t.pending && s.taken == t.taken)
  {
    HistoryKeeps(g, beh, answers, durable, inputs, trace);
    HistoryKeeps(g, beh', answers', durable', inputs, trace');
    WorldsEndAlike(g, beh, answers, inputs, trace[|trace| - 1], beh', answers', trace'[|trace'| - 1]);
  }

  lemma WorldsEndAlike(
    g: Graph, beh: Behaviour, answers: map<Id, Outputs>, inputs: Outputs, w: World,
    beh': Behaviour, answers': map<Id, Outputs>, v: World)
    requires g.Valid() && g.Acyclic() && RUN_NAMESPACE !in g.nodes
    requires SameBehaviour(Resolved(beh, answers), Resolved(beh', answers'))
    requires WorldOk(g, beh, answers, inputs, w) && WorldOk(g, beh', answers', inputs, v) && Finished(w.state)
    ensures var s, t := w.state, v.state;
            && t.failures == []
            && t.awaiting.Keys <= answers'.Keys
            && (Finished(t) ==> SameRecords(s, t) && s.pool == t.pool && s.pending == t.pending && s.taken == t.taken)
  {
    var s, t := w.state, v.state;
    FinishedSettled(g, s);
    if t.failures != [] {
      assert t.failures[0] in t.failures;
      NoOtherVerdict(g, beh, answers, s, beh', answers', t, t.failures[0]);
    }
    forall n | n in t.awaiting ensures n in answers' {
      NoOtherVerdict(g, beh, answers, s, beh', answers', t, n);
    }
    if Finished(t) {
      FinishedSettled(g, t);
      AgreeEverywhere(g, beh, answers, s, beh', answers', t);
      SameEnd(g, s, t);
    }
  }

  lemma AgreeEverywhere(
    g: Graph, beh: Behaviour, answers: map<Id, Outputs>, s: State,
    beh': Behaviour, answers': map<Id, Outputs>, t: State)
    requires g.Valid() && g.Acyclic() && RUN_NAMESPACE !in g.nodes && s.inputs == t.inputs
    requires SameBehaviour(Resolved(beh, answers), Resolved(beh', answers'))
    requires Sound(g, beh, answers, s) && Sound(g, beh', answers', t)
    requires forall n :: n in g.nodes ==> SettledIn(s.runs, n) && SettledIn(t.runs, n)
    ensures SameRecords(s, t)
  {
    hide Recorded;
    hide Graph.Valid;
    forall n | n in g.nodes ensures s.runs[n].Timeless() == t.runs[n].Timeless() {
      Agreement(g, beh, answers, s, beh', answers', t, n);
    }
  }

  lemma SamePools(s: State, t: State)
    requires s.inputs == t.inputs && SameRecords(s, t)
    requires s.pool == PoolOf(s.inputs, s.runs) && t.pool == PoolOf(t.inputs, t.runs)
    ensures s.pool == t.pool
  {
    hide PoolOf;
    forall n
      ensures (RanIn(s.runs, n) <==> RanIn(t.runs, n)) && (RanIn(s.runs, n) ==> s.runs[n].outputs == t.runs[n].outputs)
    {
      assert n in s.runs ==> s.runs[n].Timeless() == t.runs[n].Timeless();
    }
    SamePool(s.inputs, s.runs, t.runs);
  }

  lemma SameEnd(g: Graph, s: State, t: State)
    requires g.Valid() && s.inputs == t.inputs && SameRecords(s, t)
    requires Frontier(g, s) && Frontier(g, t) && Shown(g, s) && Shown(g, t)
    ensures s.pool == t.pool && s.pending == t.pending && s.taken == t.taken
  {
    hide SameRecords;
    hide PoolOf;
    hide Graph.Valid;
    hide Counters;
    hide Placed;
    hide Calm;
    SamePools(s, t);
    forall n | n in g.nodes ensures s.pending[n] == t.pending[n] && s.taken[n] == t.taken[n] {
      SameCounts(g, s, t, n);
    }
  }

  lemma SameCounts(g: Graph, s: State, t: State, n: Id)
    requires g.Valid() && SameRecords(s, t) && n in g.nodes
    requires Frontier(g, s) && Frontier(g, t)
    ensures s.pending[n] == t.pending[n] && s.taken[n] == t.taken[n]
  {
    forall e | e in g.edges
      ensures Counted(s.runs, {}, e) <==> Counted(t.runs, {}, e)
      ensures Takes(g, s.runs, e) <==> Takes(g, t.runs, e)
    {
      assert s.runs[e.source].Timeless() == t.runs[e.source].Timeless();
    }
    assert Uncounted(g, s.runs, {}, n) == Uncounted(g, t.runs, {}, n);
    assert TakenIn(g, s.runs, {}, n) == TakenIn(g, t.runs, {}, n);
    assert Exact(g, s, {}, n) && Exact(g, t, {}, n);
  }

  /** Pausing is invisible in the result: a run that asked its questions, any number of times,
      ends as the run in which every node gets its answer at once, and that run does end. */
  lemma PausesAreTransparent(
    g: Graph, inputs: Outputs, beh: Behaviour, answers: map<Id, Outputs>,
    durable: bool, trace: seq<World>, durable': bool, direct: seq<World>)
    requires g.Valid() && g.Acyclic() && RUN_NAMESPACE !in g.nodes && Local(g, beh)
    requires History(g, beh, answers, durable, inputs, trace) && Finished(trace[|trace| - 1].state)
    requires History(g, Resolved(beh, answers), map[], durable', inputs, direct) && Exited(direct[|direct| - 1].state)
    ensures var s, t := trace[|trace| - 1].state, direct[|direct| - 1].state;
            Finished(t) && SameRecords(s, t) && s.pool == t.pool && s.pending == t.pending && s.taken == t.taken
  {
    ResolvedLocal(g, beh, answers);
    HistoriesEndAlike(g, inputs, beh, answers, durable, trace, Resolved(beh, answers), map[], durable', direct);
  }

  lemma ResolvedLocal(g: Graph, beh: Behaviour, answers: map<Id, Outputs>)
    requires Local(g, beh)
    ensures Local(g, Resolved(beh, answers))
    ensures SameBehaviour(Resolved(beh, answers), Resolved(Resolved(beh, answers), map[]))
  {
    var direct := Resolved(beh, answers);
    forall n, c ensures direct(n, c) == direct(n, Visible(g, n, c)) {
      assert beh(n, c) == beh(n, Visible(g, n, c));
    }
  }

  // ------------------------------------------------------------ one wave has one result

  /** Schedule independence: a wave from a given state can end in one state only. */
  lemma WaveUnique(g: Graph, beh: Behaviour, s: State, t: State, u: State)
    requires g.Valid() && g.Acyclic() && WaveStep(g, beh, s, t) && WaveStep(g, beh, s, u)
    ensures t == u
  {
    var mid := Published(Gathered(g, beh, s), s.ready);
    if FatalOf(mid.runs, s.ready) == [] {
      DrainedUnique(g, mid, t, u);
    }
  }

  /** Nor does a resume leave a choice. */
  lemma ResumeUnique(g: Graph, answers: map<Id, Outputs>, c: Checkpoint, t: State, u: State)
    requires g.Valid() && g.Acyclic() && ResumeStep(g, answers, c, t) && ResumeStep(g, answers, c, u)
    ensures t == u
  {
    DrainedUnique(g, Answered(Restore(g, c), answers), t, u);
  }

  // ------------------------------------------------------------ counting down

  ghost function NewlyCounted(g: Graph, runs: map<Id, NodeRun>, runs': map<Id, NodeRun>, n: Id): set<Edge> {
    set e | e in g.edges && e.target == n && SettledIn(runs', e.source) && !SettledIn(runs, e.source)
  }

  ghost function NewlyTaken(g: Graph, runs: map<Id, NodeRun>, runs': map<Id, NodeRun>, n: Id): set<Edge> {
    set e | e in NewlyCounted(g, runs, runs', n) && Takes(g, runs', e)
  }

  /** The world at `i` has not been lost by the time of `j`: nothing was resumed in between, unless from a
      checkpoint made at `i` or later. */
  ghost predicate Survives(g: Graph, answers: map<Id, Outputs>, trace: seq<World>, i: nat, j: nat)
    requires i <= j < |trace|
  {
    exists m: nat :: i <= m <= j && Unbroken(g, answers, trace, i, m) &&
      (m == j || trace[m].saved == Some(Save(trace[m].state)))
  }

  ghost predicate Unbroken(g: Graph, answers: map<Id, Outputs>, trace: seq<World>, i: nat, m: nat)
    requires i <= m < |trace|
  {
    forall k :: i < k <= m ==> !ResumeNext(g, answers, trace[k - 1], trace[k])
  }

  lemma {:induction false} LineagePrefix(
    g: Graph, beh: Behaviour, answers: map<Id, Outputs>, durable: bool, inputs: Outputs, trace: seq<World>, j: nat)
    requires Lineage(g, beh, answers, durable, inputs, trace) && j < |trace|
    ensures Lineage(g, beh, answers, durable, inputs, trace[..j + 1])
    ensures j > 0 ==> Next(g, beh, answers, durable, trace[j - 1], trace[j])
    decreases |trace|
  {
    hide Next;
    if j == |trace| - 1 {
      assert trace[..j + 1] == trace;
    } else {
      var before := trace[..|trace| - 1];
      LineagePrefix(g, beh, answers, durable, inputs, before, j);
      assert before[..j + 1] == trace[..j + 1];
    }
  }

  lemma WorldConsistent(
    g: Graph, beh: Behaviour, answers: map<Id, Outputs>, durable: bool, inputs: Outputs, trace: seq<World>, j: nat)
    requires g.Valid() && Lineage(g, beh, answers, durable, inputs, trace) && j < |trace|
    ensures Consistent(g, trace[j])
    ensures j > 0 ==> Next(g, beh, answers, durable, trace[j - 1], trace[j])
  {
    hide Consistent;
    hide Next;
    LineagePrefix(g, beh, answers, durable, inputs, trace, j);
    LineageConsistent(g, beh, answers, durable, inputs, trace[..j + 1]);
  }

  lemma {:induction false} UnbrokenSettles(
    g: Graph, beh: Behaviour, answers: map<Id, Outputs>, durable: bool, inputs: Outputs, trace: seq<World>,
    i: nat, m: nat)
    requires g.Valid() && Lineage(g, beh, answers, durable, inputs, trace) && i <= m < |trace|
    requires Unbroken(g, answers, trace, i, m)
    ensures Settlements(trace[i].state.runs, trace[m].state.runs)
    decreases m - i
  {
    hide Consistent;
    hide Next;
    hide ResumeNext;
    hide Lineage;
    if i < m {
      UnbrokenSettles(g, beh, answers, durable, inputs, trace, i, m - 1);
      WorldConsistent(g, beh, answers, durable, inputs, trace, m - 1);
      WorldConsistent(g, beh, answers, durable, inputs, trace, m);
      StepConsistent(g, beh, answers, durable, trace[m - 1], trace[m]);
    }
  }

  /** The state, and the checkpoint if there is one, still have all these settlements. */
  ghost predicate Keeps(runs: map<Id, NodeRun>, w: World) {
    && Settlements(runs, w.state.runs)
    && (w.saved.Some? ==> Settlements(runs, w.saved.value.nodes))
  }

  lemma SettlementsChain(a: map<Id, NodeRun>, b: map<Id, NodeRun>, c: map<Id, NodeRun>)
    requires Settlements(a, b) && Settlements(b, c)
    ensures Settlements(a, c)
  {
    assert forall n :: SettledIn(a, n) ==> SettledIn(b, n);
  }

  lemma StepKeepsSettled(
    g: Graph, beh: Behaviour, answers: map<Id, Outputs>, durable: bool, runs: map<Id, NodeRun>, w: World, v: World)
    requires Consistent(g, w) && Next(g, beh, answers, durable, w, v) && Keeps(runs, w)
    ensures Keeps(runs, v)
  {
    hide WaveStep;
    StepConsistent(g, beh, answers, durable, w, v);
    hide ResumeStep;
    hide Frontier;
    hide Restore;
    hide Settlements;
    hide Untouched;
    if ResumeNext(g, answers, w, v) {
      SettlementsChain(runs, w.saved.value.nodes, v.state.runs);
    } else {
      SettlementsChain(runs, w.state.runs, v.state.runs);
    }
  }

  /** Everything settled in a state that was saved stays settled: in every later state, and in every later
      checkpoint. */
  lemma {:induction false} SavedSettles(
    g: Graph, beh: Behaviour, answers: map<Id, Outputs>, durable: bool, inputs: Outputs, trace: seq<World>,
    m: nat, j: nat)
    requires g.Valid() && Lineage(g, beh, answers, durable, inputs, trace) && m <= j < |trace|
    requires trace[m].saved == Some(Save(trace[m].state))
    ensures Keeps(trace[m].state.runs, trace[j])
    decreases j - m
  {
    hide Lineage;
    hide Next;
    hide Consistent;
    if m < j {
      SavedSettles(g, beh, answers, durable, inputs, trace, m, j - 1);
      WorldConsistent(g, beh, answers, durable, inputs, trace, j - 1);
      WorldConsistent(g, beh, answers, durable, inputs, trace, j);
      StepKeepsSettled(g, beh, answers, durable, trace[m].state.runs, trace[j - 1], trace[j]);
    }
  }

  lemma SurvivorsSettle(
    g: Graph, beh: Behaviour, answers: map<Id, Outputs>, durable: bool, inputs: Outputs, trace: seq<World>,
    i: nat, j: nat)
    requires g.Valid() && Lineage(g, beh, answers, durable, inputs, trace) && i <= j < |trace|
    requires Survives(g, answers, trace, i, j)
    ensures Settlements(trace[i].state.runs, trace[j].state.runs)
  {
    hide Lineage;
    var m: nat :| i <= m <= j && Unbroken(g, answers, trace, i, m) &&
      (m == j || trace[m].saved == Some(Save(trace[m].state)));
    UnbrokenSettles(g, beh, answers, durable, inputs, trace, i, m);
    if m < j { SavedSettles(g, beh, answers, durable, inputs, trace, m, j); }
  }

  /** Between two worlds of a run, the earlier of which has survived, an edge is counted down exactly if its
      source was settled in between, and credited exactly if it was taken; so in whatever survives of a run
      that crashes and resumes, no edge is ever counted down twice. */
  lemma EdgesCountedOnce(
    g: Graph, beh: Behaviour, answers: map<Id, Outputs>, durable: bool, inputs: Outputs, trace: seq<World>,
    i: nat, j: nat, n: Id)
    requires g.Valid() && Lineage(g, beh, answers, durable, inputs, trace) && i <= j < |trace| && n in g.nodes
    requires Survives(g, answers, trace, i, j) && trace[i].state.failures == [] && trace[j].state.failures == []
    ensures var s, t := trace[i].state, trace[j].state;
            && Domains(g, s) && Domains(g, t)
            && s.pending[n] - t.pending[n] == |NewlyCounted(g, s.runs, t.runs, n)|
            && t.taken[n] - s.taken[n] == |NewlyTaken(g, s.runs, t.runs, n)|
  {
    hide Lineage;
    hide Survives;
    hide Next;
    WorldConsistent(g, beh, answers, durable, inputs, trace, i);
    WorldConsistent(g, beh, answers, durable, inputs, trace, j);
    SurvivorsSettle(g, beh, answers, durable, inputs, trace, i, j);
    CountedBetween(g, trace[i].state, trace[j].state, n);
  }

  lemma CountedBetween(g: Graph, s: State, t: State, n: Id)
    requires Frontier(g, s) && Frontier(g, t) && Settlements(s.runs, t.runs) && n in g.nodes
    ensures s.pending[n] - t.pending[n] == |NewlyCounted(g, s.runs, t.runs, n)|
    ensures t.taken[n] - s.taken[n] == |NewlyTaken(g, s.runs, t.runs, n)|
  {
    assert Exact(g, s, {}, n) && Exact(g, t, {}, n);
    CountedSplit(g, s.runs, t.runs, n);
    TakenSplit(g, s.runs, t.runs, n);
  }

  lemma CountedSplit(g: Graph, runs: map<Id, NodeRun>, runs': map<Id, NodeRun>, n: Id)
    requires Settlements(runs, runs')
    ensures |Uncounted(g, runs, {}, n)| == |Uncounted(g, runs', {}, n)| + |NewlyCounted(g, runs, runs', n)|
  {
    DisjointUnion(Uncounted(g, runs, {}, n), Uncounted(g, runs', {}, n), NewlyCounted(g, runs, runs', n));
  }

  lemma TakenSplit(g: Graph, runs: map<Id, NodeRun>, runs': map<Id, NodeRun>, n: Id)
    requires Settlements(runs, runs')
    ensures |TakenIn(g, runs', {}, n)| == |TakenIn(g, runs, {}, n)| + |NewlyTaken(g, runs, runs', n)|
  {
    forall e
      ensures e in TakenIn(g, runs', {}, n) <==> e in TakenIn(g, runs, {}, n) || e in NewlyTaken(g, runs, runs', n)
    {}
    DisjointUnion(TakenIn(g, runs', {}, n), TakenIn(g, runs, {}, n), NewlyTaken(g, runs, runs', n));
  }

  ghost function TotalPending(s: State, ids: seq<Id>): int
    requires forall n :: n in ids ==> n in s.pending
  {
    if ids == [] then 0 else s.pending[ids[0]] + TotalPending(s, ids[1..])
  }

  ghost function Unsettled(g: Graph, runs: map<Id, NodeRun>, ids: seq<Id>): set<Edge> {
    set e | e in g.edges && e.target in ids && !SettledIn(runs, e.source)
  }

  lemma {:induction false} TotalIsUncounted(g: Graph, s: State, ids: seq<Id>)
    requires Domains(g, s) && Counters(g, s, {}) && Distinct(ids) && forall n :: n in ids ==> n in g.nodes
    ensures TotalPending(s, ids) == |Unsettled(g, s.runs, ids)|
  {
    if ids == [] {
      assert Unsettled(g, s.runs, ids) == {};
    } else {
      TotalIsUncounted(g, s, ids[1..]);
      assert Exact(g, s, {}, ids[0]);
      assert ids == [ids[0]] + ids[1..];
      DisjointUnion(Unsettled(g, s.runs, ids), Uncounted(g, s.runs, {}, ids[0]), Unsettled(g, s.runs, ids[1..]));
    }
  }

  /** The counters add up to the edges whose source is unsettled ... */
  lemma CountersAddUp(g: Graph, s: State)
    requires g.Valid() && Frontier(g, s)
    ensures TotalPending(s, g.ids) == |set e | e in g.edges && !SettledIn(s.runs, e.source)|
  {
    TotalIsUncounted(g, s, g.ids);
    assert Unsettled(g, s.runs, g.ids) == set e | e in g.edges && !SettledIn(s.runs, e.source);
  }

  /** ... which are all edges when a run starts and none when it has completed: the count-downs
      of a completed run are as many as the graph has edges. */
  lemma CountdownsAreEdges(g: Graph, inputs: Outputs, s: State)
    requires g.Valid() && g.Acyclic() && Frontier(g, s) && Finished(s)
    ensures TotalPending(Initial(g, inputs), g.ids) - TotalPending(s, g.ids) == |g.edges|
  {
    InitialTotal(g, inputs);
    FinishedSettled(g, s);
    CountersAddUp(g, s);
    assert (set e | e in g.edges && !SettledIn(s.runs, e.source)) == {};
  }

  lemma InitialTotal(g: Graph, inputs: Outputs)
    requires g.Valid()
    ensures TotalPending(Initial(g, inputs), g.ids) == |g.edges|
  {
    var first := Initial(g, inputs);
    InitialFrontier(g, inputs);
    CountersAddUp(g, first);
    DistinctCardinality(g.edges);
    assert forall n :: !SettledIn(first.runs, n);
    assert (set e | e in g.edges && !SettledIn(first.runs, e.source)) == set e | e in g.edges;
  }

  // ------------------------------------------------------------ what a restore forgets

  /** Saving and restoring leaves every node still to be decided with the same view exactly if
      no failure that was routed to an error edge has an undecided successor and the pool's run
      namespace still holds the run's inputs. */
  lemma RestoreExact(g: Graph, s: State)
    requires g.Valid() && Frontier(g, s) && Shown(g, s)
    ensures (forall n :: n in g.nodes && s.runs[n].status.Pending? ==>
               ContextOf(g, Restore(g, Save(s)), n) == ContextOf(g, s, n))
            <==>
            (forall n :: n in g.nodes ==> !s.runs[n].status.Pending?)
            || (Restorable(g, Save(s)) && s.pool[RUN_NAMESPACE] == s.inputs)
  {
    hide Restore;
    hide Distinct;
    hide Counters;
    hide Placed;
    hide Calm;
    hide PoolOf;
    var r := Restore(g, Save(s));
    RestoredRuns(g, Save(s));
    RestoredPool(g, s);
    forall n | n in g.nodes && s.runs[n].status.Pending?
      ensures ContextOf(g, r, n).upstream == ContextOf(g, s, n).upstream <==>
                forall p :: p in s.runs && g.HasEdge(p, n) ==> !(s.runs[p].status.Failed? && s.runs[p].recovered)
    {
      RestoredUpstream(g, s, n);
    }
    if Restorable(g, Save(s)) {
      forall p, n | p in s.runs && n in g.nodes && s.runs[n].status.Pending? && g.HasEdge(p, n)
        ensures !(s.runs[p].status.Failed? && s.runs[p].recovered)
      {
        var e :| e in g.edges && e.source == p && e.target == n;
      }
    } else {
      var e :| e in g.edges && s.runs[e.target].status.Pending? && s.runs[e.source].status.Failed?
        && s.runs[e.source].recovered;
      assert g.HasEdge(e.source, e.target);
    }
  }

  lemma RestoredPool(g: Graph, s: State)
    requires s.pool == PoolOf(s.inputs, s.runs)
    ensures Restore(g, Save(s)).pool == s.pool <==> s.pool[RUN_NAMESPACE] == s.inputs
  {
    var pool := Restore(g, Save(s)).pool;
    assert RUN_NAMESPACE in s.pool && pool[RUN_NAMESPACE] == s.inputs;
    if s.pool[RUN_NAMESPACE] == s.inputs {
      forall m ensures (m in pool <==> m in s.pool) && (m in pool ==> pool[m] == s.pool[m]) {}
    }
  }

  lemma RestoredUpstream(g: Graph, s: State, n: Id)
    requires g.Valid() && Shown(g, s) && s.runs.Keys == g.nodes.Keys && n in g.nodes && s.runs[n].status.Pending?
    ensures ContextOf(g, Restore(g, Save(s)), n).upstream == ContextOf(g, s, n).upstream <==>
              forall p :: p in s.runs && g.HasEdge(p, n) ==> !(s.runs[p].status.Failed? && s.runs[p].recovered)
  {
    hide Graph.Valid;
    hide Graph.HasEdge;
    hide Graph.Reaches;
    hide PoolOf;
    var r := Restore(g, Save(s));
    RestoredRuns(g, Save(s));
    var before, after := ContextOf(g, s, n).upstream, ContextOf(g, r, n).upstream;
    forall p | p in s.runs && g.HasEdge(p, n)
      ensures p in before <==> s.runs[p].Ran()
      ensures p in after <==> s.runs[p].status.Completed?
    {}
    if forall p :: p in s.runs && g.HasEdge(p, n) ==> !(s.runs[p].status.Failed? && s.runs[p].recovered) {
      forall p ensures (p in before <==> p in after) && (p in before ==> before[p] == after[p]) {}
    }
  }
}
