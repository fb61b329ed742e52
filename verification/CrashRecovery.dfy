/** Runs that crash and resume where nothing had been asked: wave for wave they are the run that never crashed. */
module CrashRecovery {
  import opened Wrappers
  import opened Ordering
  import opened Graphs
  import opened Engine
  import opened Frontiers
  import opened Histories
  import opened RunTheorems
  import Scheduler

  /** The same state, but for the outputs handed to successors. */
  predicate Alike(s: State, t: State) { t == s.(completed := t.completed) }

  /** What matters of `completed`: all that ran to completion is there. */
  ghost predicate AllPublished(s: State) {
    forall n :: n in s.runs && s.runs[n].status.Completed? ==> n in s.completed && s.completed[n] == s.runs[n].outputs
  }

  /** A state from which a wave starts shows every due node the same as any other state like it. */
  lemma SameContext(g: Graph, s: State, t: State, n: Id)
    requires Alike(s, t) && Shown(g, s) && Shown(g, t) && n in s.runs && s.runs[n].status.Pending?
    ensures ContextOf(g, s, n) == ContextOf(g, t, n)
  {
    hide PoolOf;
    var before, after := ContextOf(g, s, n).upstream, ContextOf(g, t, n).upstream;
    forall p ensures (p in before <==> p in after) && (p in before ==> before[p] == after[p]) {}
  }

  lemma SameRecord(g: Graph, beh: Behaviour, s: State, t: State, n: Id)
    requires Alike(s, t) && Shown(g, s) && Shown(g, t) && n in s.runs
    requires n in s.ready ==> s.runs[n].status.Pending?
    ensures RecordAfter(g, beh, s, n) == RecordAfter(g, beh, t, n)
    ensures n in s.ready ==> OutcomeOf(g, beh, s, n) == OutcomeOf(g, beh, t, n)
  {
    hide Shown;
    hide Engine.Finished;
    if n in s.ready { SameContext(g, s, t, n); }
  }

  lemma GatheredAlike(g: Graph, beh: Behaviour, s: State, t: State)
    requires Alike(s, t) && Shown(g, s) && Shown(g, t)
    requires forall n :: n in s.ready ==> n in s.runs && s.runs[n].status.Pending?
    ensures Gathered(g, beh, t) == Gathered(g, beh, s).(completed := t.completed)
  {
    hide Shown;
    hide RecordAfter;
    hide OutcomeOf;
    forall n | n in s.runs
      ensures RecordAfter(g, beh, s, n) == RecordAfter(g, beh, t, n)
      ensures n in s.ready ==> OutcomeOf(g, beh, s, n) == OutcomeOf(g, beh, t, n)
    {
      SameRecord(g, beh, s, t, n);
    }
    var a, b := Gathered(g, beh, s), Gathered(g, beh, t);
    assert a.runs == b.runs;
    QuestionsAlike(g, beh, s, t);
  }

  lemma QuestionsAlike(g: Graph, beh: Behaviour, s: State, t: State)
    requires Alike(s, t) && forall n :: n in s.ready ==> OutcomeOf(g, beh, s, n) == OutcomeOf(g, beh, t, n)
    ensures Gathered(g, beh, s).awaiting == Gathered(g, beh, t).awaiting
  {
    hide RecordAfter;
    hide OutcomeOf;
    var asked := map n | n in s.ready && OutcomeOf(g, beh, s, n).Asks? :: OutcomeOf(g, beh, s, n).question;
    var asked' := map n | n in t.ready && OutcomeOf(g, beh, t, n).Asks? :: OutcomeOf(g, beh, t, n).question;
    assert asked == asked';
  }

  /** Neither the invariant nor the draining looks at `completed`. */
  lemma FrontierAlike(g: Graph, s: State, more: map<Id, Outputs>)
    requires Frontier(g, s)
    ensures Frontier(g, s.(completed := more))
  {
    var t := s.(completed := more);
    forall n | n in g.nodes ensures Exact(g, t, {}, n) && Placed(g, t, Elements(t.ready), {}, n) {
      assert Exact(g, s, {}, n) && Placed(g, s, Elements(s.ready), {}, n);
    }
  }

  lemma DrainedAlike(g: Graph, s: State, t: State, more: map<Id, Outputs>)
    requires Drained(g, s, t)
    ensures Drained(g, s.(completed := more), t.(completed := more))
  {
    hide Frontier;
    FrontierAlike(g, t, more);
  }

  lemma WaveAlike(g: Graph, beh: Behaviour, s: State, s': State, t: State, t': State)
    requires g.Valid() && g.Acyclic() && Frontier(g, s) && Shown(g, s) && Shown(g, s') && Alike(s, s')
    requires WaveStep(g, beh, s, t) && WaveStep(g, beh, s', t')
    ensures Alike(t, t')
  {
    hide Frontier;
    hide Shown;
    hide Gathered;
    hide FatalOf;
    FrontierBatch(g, s);
    GatheredAlike(g, beh, s, s');
    var mid, mid' := Published(Gathered(g, beh, s), s.ready), Published(Gathered(g, beh, s'), s.ready);
    assert mid == mid'.(completed := mid.completed);
    if FatalOf(mid.runs, s.ready) == [] {
      DrainsAlike(g, mid, mid', t, t');
    }
  }

  lemma DrainsAlike(g: Graph, mid: State, mid': State, t: State, t': State)
    requires g.Valid() && g.Acyclic() && Drained(g, mid, t) && Drained(g, mid', t') && Alike(mid', mid)
    ensures Alike(t, t')
  {
    DrainedAlike(g, mid', t', mid.completed);
    DrainedUnique(g, mid, t, t'.(completed := mid.completed));
    hide Drained;
    assert t == t'.(completed := mid.completed);
  }

  // ------------------------------------------------------------ counting waves

  /** The states that `k` waves from the start can lead to, up to `completed`. */
  ghost predicate Reached(g: Graph, beh: Behaviour, inputs: Outputs, k: nat, s: State)
    decreases k, 1
  {
    if k == 0 then Alike(Initial(g, inputs), s)
    else exists u, t :: Leads(g, beh, inputs, k, u, t, s)
  }

  /** The last of `k` waves, from a state reached before. */
  ghost predicate Leads(g: Graph, beh: Behaviour, inputs: Outputs, k: nat, u: State, t: State, s: State)
    requires k > 0
    decreases k, 0
  {
    Reached(g, beh, inputs, k - 1, u) && Frontier(g, u) && Shown(g, u) && WaveStep(g, beh, u, t) && Alike(t, s)
  }

  lemma {:induction false} ReachedUnique(g: Graph, beh: Behaviour, inputs: Outputs, k: nat, s: State, s': State)
    requires g.Valid() && g.Acyclic() && Reached(g, beh, inputs, k, s) && Reached(g, beh, inputs, k, s')
    ensures Alike(s, s')
  {
    hide Frontier;
    hide Shown;
    hide WaveStep;
    if k > 0 {
      var u, t :| Leads(g, beh, inputs, k, u, t, s);
      var u', t' :| Leads(g, beh, inputs, k, u', t', s');
      ReachedUnique(g, beh, inputs, k - 1, u, u');
      WaveAlike(g, beh, u, u', t, t');
    }
  }

  /** Before a later state comes, at each number of waves, one from which a wave started. */
  lemma {:induction false} ReachedBefore(g: Graph, beh: Behaviour, inputs: Outputs, j: nat, k: nat, s: State)
      returns (u: State)
    requires j < k && Reached(g, beh, inputs, k, s)
    ensures Reached(g, beh, inputs, j, u) && u.ready != [] && u.failures == []
    decreases k
  {
    hide Frontier;
    hide Shown;
    hide Drained;
    hide Gathered;
    hide FatalOf;
    var t;
    u, t :| Leads(g, beh, inputs, k, u, t, s);
    if j < k - 1 { u := ReachedBefore(g, beh, inputs, j, k - 1, u); }
  }

  // ------------------------------------------------------------ crashes

  /** A wave, the exit, or a crash: a resume from a checkpoint that awaits nothing and that a restore
      shows to the nodes as it was. */
  ghost predicate CrashNext(g: Graph, beh: Behaviour, answers: map<Id, Outputs>, durable: bool, w: World, v: World) {
    || WaveNext(g, beh, durable, w, v)
    || ExitNext(durable, w, v)
    || (ResumeNext(g, answers, w, v) && Restorable(g, w.saved.value) && w.saved.value.awaiting == map[])
  }

  ghost predicate CrashHistory(
    g: Graph, beh: Behaviour, answers: map<Id, Outputs>, durable: bool, inputs: Outputs, trace: seq<World>)
  {
    && trace != []
    && if |trace| == 1 then trace[0] == World(Initial(g, inputs), None)
       else
         var before := trace[..|trace| - 1];
         && CrashHistory(g, beh, answers, durable, inputs, before)
         && CrashNext(g, beh, answers, durable, before[|before| - 1], trace[|trace| - 1])
  }

  /** The state is the one its number of waves leads to, and so is the checkpoint kept. */
  ghost predicate OnTrack(g: Graph, beh: Behaviour, inputs: Outputs, w: World) {
    && Reached(g, beh, inputs, w.state.waves, w.state) && AllPublished(w.state)
    && (w.state.failures == [] ==> Frontier(g, w.state) && Shown(g, w.state))
    && (w.saved.Some? ==> SavedOnTrack(g, beh, inputs, w.saved.value))
  }

  ghost predicate SavedOnTrack(g: Graph, beh: Behaviour, inputs: Outputs, c: Checkpoint) {
    && c.nodes.Keys == g.nodes.Keys && c.variables == PoolOf(c.inputs, c.nodes)
    && Frontier(g, Restore(g, c)) && Reached(g, beh, inputs, c.waves, Restore(g, c))
  }

  lemma RestoredAlike(g: Graph, s: State)
    requires RUN_NAMESPACE !in g.nodes && s.runs.Keys == g.nodes.Keys && s.failures == []
             && s.pool == PoolOf(s.inputs, s.runs)
    ensures Alike(s, Restore(g, Save(s)))
  {
    RestoredRuns(g, Save(s));
    RestoredPool(g, s);
  }

  lemma ReachedAlike(g: Graph, beh: Behaviour, inputs: Outputs, k: nat, s: State, t: State)
    requires Reached(g, beh, inputs, k, s) && Alike(s, t)
    ensures Reached(g, beh, inputs, k, t)
  {
    hide Initial;
    hide Frontier;
    hide Shown;
    hide WaveStep;
    if k > 0 {
      var u, v :| Leads(g, beh, inputs, k, u, v, s);
      assert Leads(g, beh, inputs, k, u, v, t);
    }
  }

  lemma BatchPublished(g: Graph, beh: Behaviour, s: State)
    requires Frontier(g, s) && AllPublished(s)
    ensures AllPublished(Published(Gathered(g, beh, s), s.ready))
  {
    hide Frontier;
    hide Engine.Finished;
    hide OutcomeOf;
    FrontierBatch(g, s);
    var mid := Published(Gathered(g, beh, s), s.ready);
    forall n | n in mid.runs && mid.runs[n].status.Completed?
      ensures n in mid.completed && mid.completed[n] == mid.runs[n].outputs
    {
      assert mid.runs[n] == RecordAfter(g, beh, s, n);
    }
  }

  lemma WavePublishes(g: Graph, beh: Behaviour, s: State, t: State)
    requires Frontier(g, s) && AllPublished(s) && WaveStep(g, beh, s, t)
    ensures AllPublished(t) && t.waves == s.waves + 1
  {
    hide Frontier;
    hide AllPublished;
    hide Gathered;
    hide RanOf;
    hide FatalOf;
    BatchPublished(g, beh, s);
    StillPublished(Published(Gathered(g, beh, s), s.ready), t);
    GatheredWaves(g, beh, s);
  }

  lemma GatheredWaves(g: Graph, beh: Behaviour, s: State)
    ensures Published(Gathered(g, beh, s), s.ready).waves == s.waves + 1
  {}

  lemma StillPublished(s: State, t: State)
    requires AllPublished(s) && t.completed == s.completed && t.runs.Keys == s.runs.Keys
    requires forall n :: n in s.runs ==> t.runs[n] == s.runs[n] || t.runs[n].status.Skipped?
    ensures AllPublished(t)
  {}

  /** With nothing to answer, a resume is the restored state itself. */
  lemma ResumesAsRestored(g: Graph, answers: map<Id, Outputs>, c: Checkpoint, t: State)
    requires g.Valid() && g.Acyclic() && ResumeStep(g, answers, c, t) && c.awaiting == map[]
             && Frontier(g, Restore(g, c))
    ensures t == Restore(g, c)
  {
    hide Frontier;
    hide AnsweredFor;
    hide Drained;
    hide Restore;
    var r := Restore(g, c);
    RestoredAsks(g, c);
    Scheduler.AnsweredNone(r, answers);
    assert r.awaiting.Keys == {} && Answered(r, answers) == r.(awaiting := map[]) == r;
    DrainsToItself(g, r);
    DrainedUnique(g, r, t, r);
  }

  lemma DrainsToItself(g: Graph, s: State)
    requires Frontier(g, s)
    ensures Drained(g, s, s)
  {
    hide Frontier;
    assert s.ready[|s.ready|..] == [];
  }

  lemma WaveStaysExact(g: Graph, beh: Behaviour, s: State, t: State)
    requires g.Valid() && Frontier(g, s) && Shown(g, s) && WaveStep(g, beh, s, t)
    ensures t.failures == [] ==> Frontier(g, t) && Shown(g, t)
  {
    hide Frontier;
    hide Shown;
    hide FatalOf;
    hide Gathered;
    var mid := Published(Gathered(g, beh, s), s.ready);
    PublishShown(g, beh, s, mid);
    if t.failures == [] { DrainShown(g, mid, t); }
  }

  lemma SavingStaysOnTrack(g: Graph, beh: Behaviour, inputs: Outputs, t: State)
    requires RUN_NAMESPACE !in g.nodes && Frontier(g, t) && Shown(g, t) && Reached(g, beh, inputs, t.waves, t)
    ensures SavedOnTrack(g, beh, inputs, Save(t))
  {
    hide Reached;
    FrontierBatch(g, t);
    SavedFrontier(g, t);
    hide Frontier;
    RestoredAlike(g, t);
    hide Restore;
    ReachedAlike(g, beh, inputs, t.waves, t, Restore(g, Save(t)));
  }

  lemma StepOnTrack(
    g: Graph, beh: Behaviour, answers: map<Id, Outputs>, durable: bool, inputs: Outputs, w: World, v: World)
    requires g.Valid() && g.Acyclic() && RUN_NAMESPACE !in g.nodes
    requires CrashNext(g, beh, answers, durable, w, v) && OnTrack(g, beh, inputs, w)
    ensures OnTrack(g, beh, inputs, v)
  {
    hide Frontier;
    hide Shown;
    hide Reached;
    hide Restorable;
    hide SavedOnTrack;
    hide AllPublished;
    if WaveNext(g, beh, durable, w, v) {
      WaveOnTrack(g, beh, durable, inputs, w, v);
    } else if ExitNext(durable, w, v) {
      if StatusOf(w.state).RunPaused? { SavingStaysOnTrack(g, beh, inputs, w.state); }
    } else {
      ResumeOnTrack(g, beh, answers, inputs, w.saved.value, v.state);
    }
  }

  lemma WaveOnTrack(g: Graph, beh: Behaviour, durable: bool, inputs: Outputs, w: World, v: World)
    requires g.Valid() && RUN_NAMESPACE !in g.nodes && WaveNext(g, beh, durable, w, v) && OnTrack(g, beh, inputs, w)
    ensures OnTrack(g, beh, inputs, v)
  {
    hide Frontier;
    hide Shown;
    hide SavedOnTrack;
    hide AllPublished;
    var s, t := w.state, v.state;
    assert s.failures == [] by {
      hide Gathered;
      hide Drained;
    }
    hide WaveStep;
    WavePublishes(g, beh, s, t);
    WaveStaysExact(g, beh, s, t);
    assert Leads(g, beh, inputs, t.waves, s, t, t);
    hide Reached;
    if v.saved != w.saved { SavingStaysOnTrack(g, beh, inputs, t); }
  }

  lemma RestoredPublishes(g: Graph, c: Checkpoint)
    ensures AllPublished(Restore(g, c)) && Restore(g, c).failures == [] && Restore(g, c).waves == c.waves
  {}

  lemma ResumeOnTrack(
    g: Graph, beh: Behaviour, answers: map<Id, Outputs>, inputs: Outputs, c: Checkpoint, t: State)
    requires g.Valid() && g.Acyclic() && RUN_NAMESPACE !in g.nodes && SavedOnTrack(g, beh, inputs, c)
    requires ResumeStep(g, answers, c, t) && Restorable(g, c) && c.awaiting == map[]
    ensures Reached(g, beh, inputs, t.waves, t) && AllPublished(t) && Frontier(g, t) && Shown(g, t)
  {
    hide Frontier;
    hide Reached;
    hide Shown;
    hide AllPublished;
    hide Restorable;
    hide Restore;
    ResumesAsRestored(g, answers, c, t);
    RestoredPublishes(g, c);
    RestoredShown(g, c);
  }

  lemma {:induction false} CrashesOnTrack(
    g: Graph, beh: Behaviour, answers: map<Id, Outputs>, durable: bool, inputs: Outputs, trace: seq<World>)
    requires g.Valid() && g.Acyclic() && RUN_NAMESPACE !in g.nodes
    requires CrashHistory(g, beh, answers, durable, inputs, trace)
    ensures OnTrack(g, beh, inputs, trace[|trace| - 1])
    decreases |trace|
  {
    hide OnTrack;
    hide CrashNext;
    if |trace| == 1 {
      StartsOnTrack(g, beh, inputs);
    } else {
      var before := trace[..|trace| - 1];
      CrashesOnTrack(g, beh, answers, durable, inputs, before);
      StepOnTrack(g, beh, answers, durable, inputs, before[|before| - 1], trace[|trace| - 1]);
    }
  }

  lemma StartsOnTrack(g: Graph, beh: Behaviour, inputs: Outputs)
    requires g.Valid()
    ensures OnTrack(g, beh, inputs, World(Initial(g, inputs), None))
  {
    hide Frontier;
    hide Shown;
    hide Graph.Predecessors;
    hide Graph.Roots;
    hide Sorted;
    InitialFrontier(g, inputs);
    InitialShown(g, inputs);
  }

  // ------------------------------------------------------------ the main results

  /** Whenever two histories have made the same number of waves, whatever crashed and was resumed in between,
      they are in the same state: records with their waves, counters, queue, pool, questions and failures. Only
      the outputs kept for successors may differ, and of those only routed failures. */
  lemma SameWavesSameState(
    g: Graph, beh: Behaviour, inputs: Outputs,
    answers: map<Id, Outputs>, durable: bool, trace: seq<World>,
    answers': map<Id, Outputs>, durable': bool, trace': seq<World>)
    requires g.Valid() && g.Acyclic() && RUN_NAMESPACE !in g.nodes
    requires CrashHistory(g, beh, answers, durable, inputs, trace)
    requires CrashHistory(g, beh, answers', durable', inputs, trace')
    requires trace[|trace| - 1].state.waves == trace'[|trace'| - 1].state.waves
    ensures var s, t := trace[|trace| - 1].state, trace'[|trace'| - 1].state;
            t == s.(completed := t.completed) && AllPublished(s) && AllPublished(t)
  {
    hide Reached;
    hide AllPublished;
    hide Frontier;
    hide Shown;
    hide SavedOnTrack;
    CrashesOnTrack(g, beh, answers, durable, inputs, trace);
    CrashesOnTrack(g, beh, answers', durable', inputs, trace');
    var s, t := trace[|trace| - 1].state, trace'[|trace'| - 1].state;
    ReachedUnique(g, beh, inputs, s.waves, s, t);
  }

  /** Crash recovery: however often a run crashes and resumes, it ends, completed, failed or paused, in the
      state of the run that never crashed, and after as many waves. */
  lemma CrashesLeaveNoTrace(
    g: Graph, beh: Behaviour, inputs: Outputs,
    answers: map<Id, Outputs>, durable: bool, trace: seq<World>,
    answers': map<Id, Outputs>, durable': bool, trace': seq<World>)
    requires g.Valid() && g.Acyclic() && RUN_NAMESPACE !in g.nodes
    requires CrashHistory(g, beh, answers, durable, inputs, trace)
    requires CrashHistory(g, beh, answers', durable', inputs, trace')
    requires Exited(trace[|trace| - 1].state) && Exited(trace'[|trace'| - 1].state)
    ensures var s, t := trace[|trace| - 1].state, trace'[|trace'| - 1].state;
            t == s.(completed := t.completed) && AllPublished(s) && AllPublished(t)
  {
    hide AllPublished;
    hide Reached;
    hide Frontier;
    hide Shown;
    hide SavedOnTrack;
    var s, t := trace[|trace| - 1].state, trace'[|trace'| - 1].state;
    CrashesOnTrack(g, beh, answers, durable, inputs, trace);
    CrashesOnTrack(g, beh, answers', durable', inputs, trace');
    EndsAlike(g, beh, inputs, s, t);
  }

  lemma EndsAlike(g: Graph, beh: Behaviour, inputs: Outputs, s: State, t: State)
    requires g.Valid() && g.Acyclic() && Exited(s) && Exited(t)
    requires Reached(g, beh, inputs, s.waves, s) && Reached(g, beh, inputs, t.waves, t)
    ensures Alike(s, t)
  {
    hide Reached;
    if s.waves < t.waves {
      var u := ReachedBefore(g, beh, inputs, s.waves, t.waves, t);
      ReachedUnique(g, beh, inputs, s.waves, s, u);
    } else if t.waves < s.waves {
      var u := ReachedBefore(g, beh, inputs, t.waves, s.waves, s);
      ReachedUnique(g, beh, inputs, t.waves, t, u);
    } else {
      ReachedUnique(g, beh, inputs, s.waves, s, t);
    }
  }
}
