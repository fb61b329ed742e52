/** How a run ends, read off its records alone, and what an ended run leaves in the store. */
module Endings {
  import opened Wrappers
  import opened Graphs
  import opened Engine
  import opened Frontiers
  import opened RunTheorems

  ghost predicate SomeFailed(s: State) {
    exists n :: n in s.runs && s.runs[n].status.Failed? && !s.runs[n].recovered
  }

  ghost predicate SomePaused(s: State) { exists n :: n in s.runs && s.runs[n].status.Paused? }

  /** Every node completed, was skipped, or failed and was stepped around. */
  ghost predicate AllDone(s: State) {
    forall n :: n in s.runs ==>
      || s.runs[n].status.Completed? || s.runs[n].status.Skipped?
      || (s.runs[n].status.Failed? && s.runs[n].recovered)
  }

  /** The status of an ended run is what its records say; that a run without failures and open questions has
      decided every node needs a graph without cycles. */
  ghost predicate Verdict(g: Graph, s: State, status: RunStatus) {
    && (status.RunFailed? <==> SomeFailed(s))
    && (status.RunPaused? <==> !SomeFailed(s) && SomePaused(s))
    && (g.Acyclic() ==> (status.RunCompleted? <==> AllDone(s)))
  }

  /** Only a paused run leaves a checkpoint: that of its last state. It waits on exactly the paused nodes and
      can be resumed, however often the run is resumed and pauses again. */
  ghost predicate Leaves(
    g: Graph, s: State, status: RunStatus, durable: bool, before: Option<Checkpoint>, saved: Option<Checkpoint>)
  {
    if status.RunPaused? then
      && saved == Some(Save(s)) && Frontier(g, Restore(g, saved.value))
      && saved.value.awaiting.Keys == set n | n in s.runs && s.runs[n].status.Paused?
    else saved == if durable then None else before
  }

  /** Between two turns of the driving loop there is a failure on record, or a frontier. */
  ghost predicate Standing(g: Graph, s: State) {
    if s.failures != [] then SomeFailed(s) else Frontier(g, s)
  }

  lemma FrontierStands(g: Graph, s: State)
    requires Frontier(g, s)
    ensures Standing(g, s)
  {}

  lemma WaveFails(g: Graph, beh: Behaviour, s: State, t: State)
    requires WaveStep(g, beh, s, t)
    ensures Standing(g, t)
  {
    hide Frontier;
    hide RecordAfter;
    hide OutcomeOf;
    var mid := Published(Gathered(g, beh, s), s.ready);
    FatalElements(mid.runs, s.ready);
    if t.failures != [] {
      var n := t.failures[0];
      assert n in t.failures && n in t.runs && t.runs[n].Fatal();
    }
  }

  lemma EndVerdict(g: Graph, s: State)
    requires g.Valid() && Exited(s) && Standing(g, s)
    ensures Verdict(g, s, StatusOf(s))
  {
    hide Tally;
    if s.failures == [] {
      if n :| n in s.runs && s.runs[n].status.Paused? {
        assert n in s.awaiting;
      } else {
        assert s.awaiting == map[];
        if g.Acyclic() {
          FinishedSettled(g, s);
          assert s.runs.Keys == g.nodes.Keys by { FrontierBatch(g, s); }
        }
      }
    }
  }

  lemma EndLeaves(g: Graph, durable: bool, w: World, v: World)
    requires Standing(g, w.state) && ExitNext(durable, w, v)
    ensures Leaves(g, v.state, StatusOf(v.state), durable, w.saved, v.saved)
  {
    hide Tally;
    if w.state.failures == [] { SavedFrontier(g, w.state); }
  }
}
